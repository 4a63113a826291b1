// Conservation of the hook-fed counters in the in-memory bus, and the derived "ok"
// series of the metrics endpoint.

module MemoryMetrics {
  import opened Sums
  import D = Dispatcher
  import G = Dedupe
  import opened SerialGuard
  import opened MemoryModel
  import opened MemorySafety
  import opened MemoryTrace
  import opened MemoryRuns

  // A consumed delivery that no ack, retry or dead-letter hook has answered yet.
  function Unanswered(stage: Stage): nat {
    if stage.DupAck? || stage.Mark? || stage.AckHook? then 1 else UnansweredFailure(stage)
  }

  function UnansweredFailure(stage: Stage): nat {
    if stage.Judge? || stage.RetryHook? || stage.DeadHook? then 1 else 0
  }

  function Returning(stage: Stage): nat {
    if stage.Over? then 1 else 0
  }

  // A handler success whose consume hook has not fired yet.
  function UncountedSuccess(stage: Stage): nat {
    if stage.OkHook? then 1 else 0
  }

  ghost predicate CountersOk(c: Counters, stages: map<nat, Stage>, commits: nat) {
    && c.consumed == c.acked + c.retried + c.dead + c.cutAfterFailure + Sum(stages, Unanswered)
    && c.consumeFailed == c.retried + c.dead + c.cutAfterFailure + Sum(stages, UnansweredFailure)
    && c.acked + c.dead + c.cutAfterFailure + c.cutInDelay == c.returned + Sum(stages, Returning)
    && commits + c.duplicates + c.consumeFailed == c.consumed + Sum(stages, UncountedSuccess)
  }

  /** One delivery moves to another stage; counters and commits move by the difference. */
  lemma MoveCounters(c: Counters, c': Counters, stages: map<nat, Stage>, w: nat, to: Stage, commits: nat, commits': nat)
    requires CountersOk(c, stages, commits) && w in stages
    requires c'.consumed + Unanswered(stages[w]) - Unanswered(to) - c'.acked - c'.retried - c'.dead - c'.cutAfterFailure
          == c.consumed - c.acked - c.retried - c.dead - c.cutAfterFailure
    requires c'.consumeFailed + UnansweredFailure(stages[w]) - UnansweredFailure(to)
            - c'.retried - c'.dead - c'.cutAfterFailure
          == c.consumeFailed - c.retried - c.dead - c.cutAfterFailure
    requires c'.acked + c'.dead + c'.cutAfterFailure + c'.cutInDelay
            + Returning(stages[w]) - Returning(to) - c'.returned
          == c.acked + c.dead + c.cutAfterFailure + c.cutInDelay - c.returned
    requires commits' + c'.duplicates + c'.consumeFailed
            + UncountedSuccess(stages[w]) - UncountedSuccess(to) - c'.consumed
          == commits + c.duplicates + c.consumeFailed - c.consumed
    ensures CountersOk(c', stages[w := to], commits')
  {
    SumWrite(stages, Unanswered, w, to);
    SumWrite(stages, UnansweredFailure, w, to);
    SumWrite(stages, Returning, w, to);
    SumWrite(stages, UncountedSuccess, w, to);
  }

  lemma EnterCounters(c: Counters, stages: map<nat, Stage>, w: nat, commits: nat)
    requires CountersOk(c, stages, commits) && w !in stages
    ensures CountersOk(c, stages[w := Lookup], commits)
  {
    SumWrite(stages, Unanswered, w, Lookup);
    SumWrite(stages, UnansweredFailure, w, Lookup);
    SumWrite(stages, Returning, w, Lookup);
    SumWrite(stages, UncountedSuccess, w, Lookup);
  }

  lemma LeaveCounters(c: Counters, stages: map<nat, Stage>, w: nat, commits: nat)
    requires CountersOk(c, stages, commits) && w in stages && stages[w].Over?
    ensures CountersOk(c.(returned := c.returned + 1), stages - {w}, commits)
  {
    SumSplit(stages, Unanswered, w);
    SumSplit(stages, UnansweredFailure, w);
    SumSplit(stages, Returning, w);
    SumSplit(stages, UncountedSuccess, w);
  }

  lemma HookCounters(c: Counters, stages: map<nat, Stage>, w: nat, commits: nat)
    requires CountersOk(c, stages, commits) && w in stages && HasHook(stages[w])
    ensures CountersOk(Count(c, stages[w]), stages[w := AfterHook(stages[w])], commits)
  {
    hide Sum, CountersOk;
    MoveCounters(c, Count(c, stages[w]), stages, w, AfterHook(stages[w]), commits, commits);
  }

  ghost predicate Counted(s: State) {
    CountersOk(s.counters, s.stages, |s.guard.commits|)
  }

  lemma InsideCounters(s: State, a: Action)
    requires Enabled(s, a) && Counted(s)
    requires a.FindDone? || a.CallHandler? || a.Record? || a.Decide? || a.Wait?
    ensures Counted(Apply(s, a))
  {
    hide Sum, CountersOk, Fails, D.Enabled, D.Apply, D.TrySend, D.Take;
    var t := Apply(s, a);
    MoveCounters(s.counters, t.counters, s.stages, a.w, t.stages[a.w], |s.guard.commits|, |t.guard.commits|);
  }

  lemma StepCounters(s: State, a: Action)
    requires Enabled(s, a) && Inv(s) && Counted(s)
    ensures Counted(Apply(s, a))
  {
    hide FrontValid, CountersOk, D.Inv, TasksValid, G.Inv;
    match a
    case FindDone(w) => InsideCounters(s, a);
    case CallHandler(w, ok) => InsideCounters(s, a);
    case Record(w) => InsideCounters(s, a);
    case Decide(w) => InsideCounters(s, a);
    case Wait(w, cut) => InsideCounters(s, a);
    case FireHook(w) => HookCounters(s.counters, s.stages, w, |s.guard.commits|);
    case Take(w) => EnterCounters(s.counters, s.stages, w, |s.guard.commits|);
    case Return(w) => LeaveCounters(s.counters, s.stages, w, |s.guard.commits|);
    case Publish(env, copies) => SameCounters(s, Apply(s, a));
    case RefusePublish => SameCounters(s, Apply(s, a));
    case _ => assert Apply(s, a).counters == s.counters && Apply(s, a).stages == s.stages;
  }

  lemma SameCounters(s: State, t: State)
    requires Counted(s) && t.stages == s.stages && t.guard == s.guard
    requires t.counters == s.counters.(published := t.counters.published, publishFailed := t.counters.publishFailed)
    ensures Counted(t)
  {
  }

  /** Nothing was cut short unless somebody cancelled or closed, and no duplicate or
      failure is counted that was not consumed. */
  ghost predicate CutsOk(s: State) {
    && (!s.front.interrupted ==> s.counters.cutAfterFailure == 0 && s.counters.cutInDelay == 0)
    && s.counters.consumed >= s.counters.duplicates + s.counters.consumeFailed
  }

  lemma StepCuts(s: State, a: Action)
    requires Enabled(s, a) && FlagsOk(s) && CutsOk(s)
    ensures CutsOk(Apply(s, a))
  {
    hide D.TrySend, D.Take, D.Complete, D.Apply, G.Check, G.Commit, G.Mark, G.GiveUp, G.Begin, G.End;
  }

  lemma {:induction false} StepsCounted(s: State, acts: seq<Action>, t: State)
    requires Good(s) && Counted(s) && CutsOk(s) && Steps(s, acts, t)
    ensures Good(t) && Counted(t) && CutsOk(t)
    decreases |acts|
  {
    if acts != [] {
      StepGood(s, acts[0]);
      assert Inv(s) && FlagsOk(s);
      hide Good, Inv, FlagsOk, Counted, CutsOk;
      StepCounters(s, acts[0]);
      StepCuts(s, acts[0]);
      StepsCounted(Apply(s, acts[0]), acts[1..], t);
    }
  }

  /** The ok series: consumed less duplicates and failures, clamped at zero. */
  function OkSeries(c: Counters): (ok: nat) {
    if c.consumed < c.duplicates + c.consumeFailed then 0 else c.consumed - c.duplicates - c.consumeFailed
  }

  /** Whenever no delivery is under way the counters balance: every consumed delivery was
      acked, retried, dead-lettered or (after a cancellation only) cut; every failure was
      retried, dead-lettered or cut; every return was an ack, a dead letter or a cut.  The
      ok series is then not clamped: it is the number of distinct events whose handler
      call succeeded. */
  lemma CountersBalance(maxAttempts: int, queueSize: int, acts: seq<Action>, s: State)
    requires Steps(Init(maxAttempts, queueSize), acts, s) && s.stages == map[]
    ensures var c := s.counters;
      && c.consumed == c.acked + c.retried + c.dead + c.cutAfterFailure
      && c.consumeFailed == c.retried + c.dead + c.cutAfterFailure
      && c.acked + c.dead + c.cutAfterFailure + c.cutInDelay == c.returned
      && (!s.front.interrupted ==> c.cutAfterFailure == 0 && c.cutInDelay == 0)
      && c.consumed - c.duplicates - c.consumeFailed == OkSeries(c) == |s.guard.commits|
      && c.acked == c.duplicates + OkSeries(c)
    ensures G.NoDuplicates(s.guard.commits)
  {
    var s0 := Init(maxAttempts, queueSize);
    InitGood(maxAttempts, queueSize);
    assert Counted(s0) && CutsOk(s0);
    StepsCounted(s0, acts, s);
    assert Inv(s);
  }

  /** At any moment, deliveries under way or not, the ok series is not clamped and counts
      at most the successes so far. */
  lemma OkSeriesNeverClamped(maxAttempts: int, queueSize: int, acts: seq<Action>, s: State)
    requires Steps(Init(maxAttempts, queueSize), acts, s)
    ensures s.counters.consumed >= s.counters.duplicates + s.counters.consumeFailed
    ensures OkSeries(s.counters) <= |s.guard.commits|
  {
    var s0 := Init(maxAttempts, queueSize);
    InitGood(maxAttempts, queueSize);
    StepsCounted(s0, acts, s);
  }
}
