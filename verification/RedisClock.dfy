// Claims in time: XAUTOCLAIM takes, in order of their ids, pending entries whose last
// delivery lies far enough back.  And a run in time in which blind claims make the handler
// run for one entry without end.

module RedisClock {
  import opened Identity
  import opened Sums
  import D = Dispatcher
  import R = DeadLetters
  import opened RedisModel
  import opened RedisSafety
  import opened RedisBudget
  import opened RedisRetries
  import opened RedisRows
  import opened RedisDelivery

  /** Milliseconds. */
  const CLAIM_MIN_IDLE: int := 5000
  const CLAIM_PERIOD: int := 1000

  /** last: when each entry was last delivered; now: the time of the last step. */
  datatype Timed = Timed(s: State, last: map<nat, int>, now: int)

  datatype Tick = Tick(at: int, a: Action)

  predicate IsIdle(last: map<nat, int>, id: nat, at: int) {
    id in last && at - last[id] >= CLAIM_MIN_IDLE
  }

  /** ids are the first idle pending entries, as many as there are up to count. */
  predicate AreFirstIdle(ids: seq<nat>, pel: map<nat, nat>, last: map<nat, int>, at: int, count: nat) {
    && Increasing(ids) && |ids| <= count
    && (forall i :: 0 <= i < |ids| ==> ids[i] in pel && IsIdle(last, ids[i], at))
    && (forall id :: id in pel && IsIdle(last, id, at) && id !in ids ==>
          |ids| == count && forall i :: 0 <= i < |ids| ==> ids[i] < id)
  }

  ghost predicate TimedEnabled(ts: Timed, e: Tick) {
    && ts.now <= e.at && Enabled(ts.s, e.a)
    && (e.a.Claim? ==> AreFirstIdle(e.a.ids, ts.s.srv.pel, ts.last, e.at, ts.s.count))
  }

  function Stamp(last: map<nat, int>, from: nat, n: nat, at: int): map<nat, int> {
    if n == 0 then last else Stamp(last, from, n - 1, at)[from + n - 1 := at]
  }

  function StampAll(last: map<nat, int>, ids: seq<nat>, at: int): map<nat, int> {
    if ids == [] then last else StampAll(last, ids[1..], at)[ids[0] := at]
  }

  function TimedApply(ts: Timed, e: Tick): Timed
    requires TimedEnabled(ts, e)
  {
    var last := match e.a
      case Read(n, _) => Stamp(ts.last, ts.s.srv.next, n, e.at)
      case Claim(ids, _) => StampAll(ts.last, ids, e.at)
      case _ => ts.last;
    Timed(Apply(ts.s, e.a), last, e.at)
  }

  /** ticks is a possible run in time from ts, ending in us. */
  ghost predicate TimedSteps(ts: Timed, ticks: seq<Tick>, us: Timed)
    decreases |ticks|
  {
    if ticks == [] then ts == us
    else TimedEnabled(ts, ticks[0]) && TimedSteps(TimedApply(ts, ticks[0]), ticks[1..], us)
  }

  lemma {:induction false} StampExactly(last: map<nat, int>, from: nat, n: nat, at: int, id: nat)
    ensures var now := Stamp(last, from, n, at);
      if from <= id < from + n then id in now && now[id] == at
      else (id in now <==> id in last) && (id in last ==> now[id] == last[id])
  {
    if n > 0 {
      StampExactly(last, from, n - 1, at, id);
    }
  }

  lemma {:induction false} StampAllExactly(last: map<nat, int>, ids: seq<nat>, at: int, id: nat)
    ensures var now := StampAll(last, ids, at);
      if id in ids then id in now && now[id] == at
      else (id in now <==> id in last) && (id in last ==> now[id] == last[id])
  {
    if ids != [] {
      StampAllExactly(last, ids[1..], at, id);
    }
  }

  /** Time does not go back; it is noted when an entry is read or claimed, and at no other
      step.  A claim takes only pending entries whose last delivery is five seconds old or
      more, and leaves one of those out only if it has taken as many as it may, all of them
      before it. */
  lemma TimedStepExactly(ts: Timed, e: Tick, id: nat)
    requires TimedEnabled(ts, e)
    ensures var us := TimedApply(ts, e);
      var delivered := (e.a.Read? && ts.s.srv.next <= id < ts.s.srv.next + e.a.n) || (e.a.Claim? && id in e.a.ids);
      && us.s == Apply(ts.s, e.a) && ts.now <= us.now == e.at
      && (if delivered then id in us.last && us.last[id] == e.at
          else (id in us.last <==> id in ts.last) && (id in ts.last ==> us.last[id] == ts.last[id]))
    ensures e.a.Claim? ==>
      var idle := id in ts.s.srv.pel && id in ts.last && e.at - ts.last[id] >= 5000;
      && |e.a.ids| <= ts.s.count && (id in e.a.ids ==> idle)
      && (idle && id !in e.a.ids ==> |e.a.ids| == ts.s.count && forall j :: j in e.a.ids ==> j < id)
  {
    hide Enabled, Apply;
    if e.a.Read? {
      StampExactly(ts.last, ts.s.srv.next, e.a.n, e.at, id);
    } else if e.a.Claim? {
      StampAllExactly(ts.last, e.a.ids, e.at, id);
    }
    hide Stamp, StampAll;
  }

  function Actions(ticks: seq<Tick>): seq<Action> {
    seq(|ticks|, i requires 0 <= i < |ticks| => ticks[i].a)
  }

  /** A run in time is a run. */
  lemma {:induction false} TimedIsRun(ts: Timed, ticks: seq<Tick>, us: Timed)
    requires TimedSteps(ts, ticks, us)
    ensures Steps(ts.s, Actions(ticks), us.s)
    decreases |ticks|
  {
    hide Apply, Enabled, AreFirstIdle;
    if ticks != [] {
      TimedIsRun(TimedApply(ts, ticks[0]), ticks[1..], us);
      assert Actions(ticks)[1..] == Actions(ticks[1..]);
    }
  }

  lemma {:induction false} TimedJoin(ts: Timed, a: seq<Tick>, ms: Timed, b: seq<Tick>, us: Timed)
    requires TimedSteps(ts, a, ms) && TimedSteps(ms, b, us)
    ensures TimedSteps(ts, a + b, us)
    decreases |a|
  {
    hide TimedApply, TimedEnabled;
    if a == [] {
      assert a + b == b;
    } else {
      TimedJoin(TimedApply(ts, a[0]), a[1..], ms, b, us);
      assert (a + b)[1..] == a[1..] + b;
    }
  }

  lemma TimedOne(ts: Timed, e: Tick, us: Timed)
    requires TimedEnabled(ts, e) && us == TimedApply(ts, e)
    ensures TimedSteps(ts, [e], us)
  {
    hide TimedApply, TimedEnabled;
    assert [e][1..] == [];
  }

  function AllAt(acts: seq<Action>, at: int): seq<Tick> {
    seq(|acts|, i requires 0 <= i < |acts| => Tick(at, acts[i]))
  }

  predicate Delivers(a: Action) {
    a.Read? || a.Claim?
  }

  /** Steps that deliver nothing may all be taken at once. */
  lemma {:induction false} AtOnce(ts: Timed, acts: seq<Action>, t: State)
    requires Steps(ts.s, acts, t) && acts != [] && forall i :: 0 <= i < |acts| ==> !Delivers(acts[i])
    ensures TimedSteps(ts, AllAt(acts, ts.now), Timed(t, ts.last, ts.now))
    decreases |acts|
  {
    var e := Tick(ts.now, acts[0]);
    assert !Delivers(acts[0]);
    hide Apply, Enabled;
    var next := TimedApply(ts, e);
    assert AllAt(acts, ts.now)[1..] == AllAt(acts[1..], ts.now);
    if |acts| > 1 {
      AtOnce(next, acts[1..], t);
    } else {
      assert acts[1..] == [] && AllAt([], ts.now) == [];
    }
  }

  // --------------------------------------------------------- a resting consumer

  /** What cannot be decoded and, because of its timestamp, cannot be dead-lettered. */
  const OFFSET_FRAME := Undecodable(Some(R.RawFrame("", "", 0, "", "2026-01-02T03:04:05+08:00")), true)

  lemma OffsetFrameRefused(stream: seq<Frame>)
    requires stream != [] && stream[0] == OFFSET_FRAME
    ensures !HasWritableRow(stream, 0)
  {
    hide HasWritableRow, R.IsWritable;
    RowRefusedExactly(stream, 0);
    assert OFFSET_FRAME.raw.value.occurredAt[24] == '0';
  }

  /** Entry 0 cannot be decoded and its row is refused; entry 1 is an ordinary event. */
  function TwoEntries(env: Envelope, next: nat, pel: map<nat, nat>): Server {
    Server([OFFSET_FRAME, Good(env)], next, pel, {}, {})
  }

  predicate NoWork(d: D.State) {
    d.workers == map[] && d.queues == map[] && !d.stopped && !d.done && d.queueSize > 0
  }

  /** Nothing under way but, perhaps, batches. */
  predicate Calm(s: State) {
    && s.maxAttempts == 5 && s.count == 1 && NoWork(s.proc.disp)
    && s.proc.stages == map[] && s.proc.guard.threads == map[] && s.proc.guard.seen == {}
    && !s.proc.cancelled && !s.proc.closed
  }

  predicate Resting(s: State) {
    Calm(s) && s.proc.reader == s.proc.claimer == NO_BATCH && s.proc.scan.None?
  }

  /** Calm, with one job in one batch. */
  predicate Loaded(s: State, claimed: bool, job: Job) {
    && Calm(s) && s.proc.scan.None?
    && BatchOf(s.proc, claimed) == Front([job], false) && BatchOf(s.proc, !claimed) == NO_BATCH
  }

  // ------------------------------------------------- serving one failing message

  /** The single worker of the single run. */
  predicate OnlyWorker(d: D.State, q: nat, run: string, tasks: seq<D.Task>, pc: D.Pc) {
    && d.workers == map[0 := D.Worker(run, q, pc)] && d.queues == map[run := q]
    && q in d.heap && d.heap[q] == D.Queue(tasks, true)
    && !d.stopped && !d.done && d.queueSize > 0
  }

  lemma SendOnly(d: D.State, task: D.Task, q: nat)
    requires NoWork(d) && q !in d.heap
    ensures D.TrySend(d, task, q, 0).1.Sent?
    ensures OnlyWorker(D.TrySend(d, task, q, 0).0, q, task.env.runId, [task], D.Receive)
  {
    var e := D.TrySend(d, task, q, 0).0;
    assert e.queues == map[task.env.runId := q];
    assert e.workers == map[0 := D.Worker(task.env.runId, q, D.Receive)];
  }

  lemma TakeOnly(d: D.State, task: D.Task, q: nat, run: string)
    requires OnlyWorker(d, q, run, [task], D.Receive)
    ensures D.Enabled(d, D.DoTake(0)) && OnlyWorker(D.Take(d, 0), q, run, [], D.Running(task))
  {
    assert [task][1..] == [];
    assert D.Take(d, 0).workers == map[0 := D.Worker(run, q, D.Running(task))];
  }

  lemma FinishOnly(d: D.State, task: D.Task, q: nat, run: string)
    requires OnlyWorker(d, q, run, [], D.Running(task))
    ensures OnlyWorker(D.Complete(d, 0), q, run, [], D.Check)
  {
    assert D.Complete(d, 0).workers == map[0 := D.Worker(run, q, D.Check)];
  }

  lemma LookOnly(d: D.State, q: nat, run: string)
    requires OnlyWorker(d, q, run, [], D.Check)
    ensures D.Enabled(d, D.DoLook(0)) && OnlyWorker(D.Apply(d, D.DoLook(0)), q, run, [], D.Retire)
  {
    assert D.Look(d, 0).workers == map[0 := D.Worker(run, q, D.Retire)];
  }

  lemma RetireOnly(d: D.State, q: nat, run: string)
    requires OnlyWorker(d, q, run, [], D.Retire)
    ensures D.Enabled(d, D.DoRetire(0)) && NoWork(D.Apply(d, D.DoRetire(0)))
  {
    assert D.Drop(d, 0).workers == map[] && D.Drop(d, 0).queues == map[];
  }

  /** The consumer with its only worker at some point, nothing in the batches. */
  predicate Serving(s: State, q: nat, run: string, tasks: seq<D.Task>, pc: D.Pc) {
    && s.maxAttempts == 5 && s.count == 1 && OnlyWorker(s.proc.disp, q, run, tasks, pc)
    && s.proc.guard.seen == {} && !s.proc.cancelled && !s.proc.closed
    && s.proc.reader == s.proc.claimer == NO_BATCH && s.proc.scan.None?
  }

  lemma SendStep(s: State, claimed: bool, job: Job, q: nat) returns (t: State)
    requires Loaded(s, claimed, job) && job.id < |s.srv.stream| && s.srv.stream[job.id].Good? && job.attempt <= 5
    requires q !in s.proc.disp.heap
    ensures var task := Message(s.srv.stream[job.id], job);
      Serving(t, q, task.env.runId, [task], D.Receive)
    ensures Steps(s, [BatchSend(claimed, q, 0)], t)
    ensures t.srv == s.srv && t.hist.calls == s.hist.calls && t.proc.stages == map[] && t.proc.guard.threads == map[]
  {
    var task := Message(s.srv.stream[job.id], job);
    SendOnly(s.proc.disp, task, q);
    t := DoBatchSend(s, claimed, q, 0);
    assert [job][1..] == [];
    assert Enabled(s, BatchSend(claimed, q, 0));
    OneStep(s, BatchSend(claimed, q, 0), t);
    hide Steps, D.TrySend;
  }

  lemma TakeStep(s: State, q: nat, run: string, task: D.Task) returns (t: State)
    requires Serving(s, q, run, [task], D.Receive) && s.proc.stages == map[] && s.proc.guard.threads == map[]
    requires task.entry.Some?
    ensures Steps(s, [Take(0)], t) && Serving(t, q, run, [], D.Running(task))
    ensures t.srv == s.srv && t.hist.calls == s.hist.calls
    ensures OnStage(t, 0, Lookup) && t.proc.guard.threads[0].event == EventOf(t, 0)
    ensures t.proc.stages.Keys == t.proc.guard.threads.Keys == {0}
  {
    TakeOnly(s.proc.disp, task, q, run);
    t := DoTake(s, 0);
    OneStep(s, Take(0), t);
    hide Steps, D.Take;
  }

  lemma ReturnStep(s: State, q: nat, run: string, task: D.Task) returns (t: State)
    requires Serving(s, q, run, [], D.Running(task)) && OnStage(s, 0, Over)
    requires s.proc.stages.Keys == s.proc.guard.threads.Keys == {0}
    ensures Steps(s, [Return(0)], t) && Serving(t, q, run, [], D.Check)
    ensures t.srv == s.srv && t.hist.calls == s.hist.calls && t.proc.stages == map[] && t.proc.guard.threads == map[]
  {
    FinishOnly(s.proc.disp, task, q, run);
    t := DoReturn(s, 0);
    OneStep(s, Return(0), t);
    hide Steps, D.Complete;
  }

  lemma RetireSteps(s: State, q: nat, run: string) returns (t: State)
    requires Serving(s, q, run, [], D.Check) && s.proc.stages == map[] && s.proc.guard.threads == map[]
    ensures Steps(s, [DispatcherMove(D.DoLook(0)), DispatcherMove(D.DoRetire(0))], t)
    ensures Resting(t) && t.srv == s.srv && t.hist.calls == s.hist.calls
  {
    LookOnly(s.proc.disp, q, run);
    var m := Apply(s, DispatcherMove(D.DoLook(0)));
    RetireOnly(m.proc.disp, q, run);
    t := Apply(m, DispatcherMove(D.DoRetire(0)));
    hide D.Apply, D.Enabled, OnlyWorker, NoWork;
    OneStep(s, DispatcherMove(D.DoLook(0)), m);
    OneStep(m, DispatcherMove(D.DoRetire(0)), t);
    hide Steps, Apply, Enabled;
    StepsJoin(s, [DispatcherMove(D.DoLook(0))], m, [DispatcherMove(D.DoRetire(0))], t);
    assert [DispatcherMove(D.DoLook(0))] + [DispatcherMove(D.DoRetire(0))] ==
      [DispatcherMove(D.DoLook(0)), DispatcherMove(D.DoRetire(0))];
  }

  lemma HandleSteps(s: State, q: nat, run: string, task: D.Task) returns (acts: seq<Action>, t: State)
    requires Serving(s, q, run, [], D.Running(task)) && OnStage(s, 0, Lookup) && task.attempt < 5
    requires s.proc.guard.threads[0].event == EventOf(s, 0) && s.proc.stages.Keys == s.proc.guard.threads.Keys == {0}
    ensures Steps(s, acts, t) && Serving(t, q, run, [], D.Running(task)) && OnStage(t, 0, Over)
    ensures t.proc.stages.Keys == t.proc.guard.threads.Keys == {0}
    ensures t.srv == s.srv && t.hist.calls == s.hist.calls + [JobOf(s, 0)]
    ensures acts == [FindDone(0)] + [CallHandler(0, false), Decide(0)]
  {
    hide Steps, Apply, Enabled;
    var m := LookupStep(s, 0);
    t := FailureSteps(m, 0);
    acts := [FindDone(0)] + [CallHandler(0, false), Decide(0)];
    StepsJoin(s, [FindDone(0)], m, [CallHandler(0, false), Decide(0)], t);
  }

  predicate DeliversNothing(acts: seq<Action>) {
    acts != [] && forall i :: 0 <= i < |acts| ==> !Delivers(acts[i])
  }

  function EndActions(): seq<Action> {
    [Return(0)] + [DispatcherMove(D.DoLook(0)), DispatcherMove(D.DoRetire(0))]
  }

  lemma EndSteps(s: State, q: nat, run: string, task: D.Task) returns (t: State)
    requires Serving(s, q, run, [], D.Running(task)) && OnStage(s, 0, Over)
    requires s.proc.stages.Keys == s.proc.guard.threads.Keys == {0}
    ensures Steps(s, EndActions(), t)
    ensures Resting(t) && t.srv == s.srv && t.hist.calls == s.hist.calls
  {
    hide Steps, Resting;
    var m := ReturnStep(s, q, run, task);
    t := RetireSteps(m, q, run);
    hide Serving, OnStage;
    StepsJoin(s, [Return(0)], m, [DispatcherMove(D.DoLook(0)), DispatcherMove(D.DoRetire(0))], t);
  }

  lemma ServingDeliversNothing(claimed: bool, q: nat, inner: seq<Action>)
    requires inner == [FindDone(0)] + [CallHandler(0, false), Decide(0)]
    ensures DeliversNothing([BatchSend(claimed, q, 0)] + ([Take(0)] + (inner + EndActions())))
  {
  }

  /** A job in a batch is sent, its handler called and failing, and the consumer rests. */
  lemma ServeOne(s: State, claimed: bool, job: Job) returns (acts: seq<Action>, t: State)
    requires Loaded(s, claimed, job) && job.id < |s.srv.stream| && s.srv.stream[job.id].Good? && job.attempt < 5
    ensures Steps(s, acts, t) && DeliversNothing(acts)
    ensures Resting(t) && t.srv == s.srv && t.hist.calls == s.hist.calls + [job]
  {
    var q := Above(s.proc.disp.heap);
    var task := Message(s.srv.stream[job.id], job);
    var run := task.env.runId;
    hide Steps, Resting, Loaded;
    var m1 := SendStep(s, claimed, job, q);
    var m2 := TakeStep(m1, q, run, task);
    assert JobOf(m2, 0) == job;
    var inner, m3 := HandleSteps(m2, q, run, task);
    t := EndSteps(m3, q, run, task);
    hide Serving, OnStage;
    acts := [BatchSend(claimed, q, 0)] + ([Take(0)] + (inner + EndActions()));
    StepsJoin(m2, inner, m3, EndActions(), t);
    ServingDeliversNothing(claimed, q, inner);
    hide EndActions, DeliversNothing;
    StepsJoin(m1, [Take(0)], m2, inner + EndActions(), t);
    StepsJoin(s, [BatchSend(claimed, q, 0)], m1, [Take(0)] + (inner + EndActions()), t);
  }

  // ------------------------------------------------------------- passes in time

  /** The consumer rests and both entries are pending, delivered a and b times. */
  predicate Pending(s: State, env: Envelope, a: nat, b: nat) {
    Resting(s) && s.srv == TwoEntries(env, 2, map[0 := a, 1 := b]) && a >= 1 && b >= 1
  }

  /** XPENDING with limit 1 over entries 0 and 1 lists entry 0 only. */
  lemma ScanOfOne(a: nat, b: nat)
    ensures XPending(map[0 := a, 1 := b], 1) == map[0 := a]
  {
    var pel := map[0 := a, 1 := b];
    assert Below(pel, 1) == {0} && Below(pel, 0) == {};
  }

  predicate AfterClaim(s: State, t: State, env: Envelope, a: nat, b: nat, jobs: seq<Job>) {
    && Calm(t) && t.proc.scan.None? && t.proc.reader == NO_BATCH && t.proc.claimer == Front(jobs, false)
    && t.srv == TwoEntries(env, 2, map[0 := a, 1 := b]) && t.hist.calls == s.hist.calls
  }

  lemma ClaimNow(s: State, env: Envelope, a: nat, b: nat, ids: seq<nat>) returns (m: State, t: State)
    requires Pending(s, env, a, b) && (ids == [] || ids == [0] || ids == [1])
    ensures Enabled(s, Scan) && Apply(s, Scan) == m && m.srv == s.srv && m.count == 1
    ensures Enabled(m, Claim(ids, false)) && Apply(m, Claim(ids, false)) == t
    ensures AfterClaim(s, t, env, if ids == [0] then a + 1 else a, if ids == [1] then b + 1 else b,
                       if ids == [] then [] else if ids == [0] then [Job(0, a + 1)] else [Job(1, 2)])
  {
    m := DoScan(s);
    ScanOfOne(a, b);
    t := DoClaim(m, ids, false);
    var jobs := ClaimJobs(m.proc.scan.value, ids, false);
    assert jobs == if ids == [] then [] else if ids == [0] then [Job(0, a + 1)] else [Job(1, 2)];
    GiveAllCalls(ClaimHistory(m, ids, false), jobs);
    assert XAutoClaim(m.srv, ids).pel ==
      map[0 := if ids == [0] then a + 1 else a, 1 := if ids == [1] then b + 1 else b];
    hide XPending, GiveAll, ClaimsBlindly;
  }

  lemma {:induction false} GiveAllCalls(h: History, jobs: seq<Job>)
    ensures GiveAll(h, jobs, true).calls == h.calls
    decreases |jobs|
  {
    if jobs != [] {
      GiveAllCalls(Give(h, jobs[0], true), jobs[1..]);
    }
  }

  /** A scan and a claim at one time. */
  lemma PassStarts(ts: Timed, env: Envelope, a: nat, b: nat, ids: seq<nat>, at: int)
    returns (ticks: seq<Tick>, us: Timed)
    requires Pending(ts.s, env, a, b) && (ids == [] || ids == [0] || ids == [1]) && ts.now <= at
    requires AreFirstIdle(ids, map[0 := a, 1 := b], ts.last, at, 1)
    ensures TimedSteps(ts, ticks, us) && us.last == StampAll(ts.last, ids, at) && us.now == at
    ensures AfterClaim(ts.s, us.s, env, if ids == [0] then a + 1 else a, if ids == [1] then b + 1 else b,
                       if ids == [] then [] else if ids == [0] then [Job(0, a + 1)] else [Job(1, 2)])
  {
    var m, t := ClaimNow(ts.s, env, a, b, ids);
    var ms := Timed(m, ts.last, at);
    us := Timed(t, StampAll(ts.last, ids, at), at);
    hide Apply, Enabled, AfterClaim, StampAll, AreFirstIdle, Resting;
    TimedOne(ts, Tick(at, Scan), ms);
    TimedOne(ms, Tick(at, Claim(ids, false)), us);
    hide TimedSteps, TimedApply, TimedEnabled;
    ticks := [Tick(at, Scan)] + [Tick(at, Claim(ids, false))];
    TimedJoin(ts, [Tick(at, Scan)], ms, [Tick(at, Claim(ids, false))], us);
  }

  lemma RowRefused(s: State, env: Envelope, a: nat, b: nat, attempt: nat)
    requires AfterClaim(s, s, env, a, b, [Job(0, attempt)]) && a >= 1 && b >= 1
    ensures Enabled(s, BatchRow(true, false, false))
    ensures Pending(Apply(s, BatchRow(true, false, false)), env, a, b)
    ensures Apply(s, BatchRow(true, false, false)).hist == s.hist
  {
    assert [Job(0, attempt)][1..] == [];
  }

  /** A pass that claims entry 0 fails to dead-letter it. */
  lemma PassZero(ts: Timed, env: Envelope, a: nat, b: nat, at: int) returns (ticks: seq<Tick>, us: Timed)
    requires Pending(ts.s, env, a, b) && ts.now <= at && IsIdle(ts.last, 0, at)
    ensures TimedSteps(ts, ticks, us) && us.last == ts.last[0 := at] && us.now == at
    ensures Pending(us.s, env, a + 1, b) && us.s.hist.calls == ts.s.hist.calls
  {
    var first, ms := PassStarts(ts, env, a, b, [0], at);
    assert StampAll(ts.last, [0], at) == ts.last[0 := at] by {
      assert [0][1..] == [];
    }
    RowRefused(ms.s, env, a + 1, b, a + 1);
    var t := Apply(ms.s, BatchRow(true, false, false));
    OneStep(ms.s, BatchRow(true, false, false), t);
    us := Timed(t, ms.last, at);
    hide Apply, Enabled, Pending, TimedSteps, Steps, StampAll;
    AtOnce(ms, [BatchRow(true, false, false)], t);
    ticks := first + AllAt([BatchRow(true, false, false)], at);
    TimedJoin(ts, first, ms, AllAt([BatchRow(true, false, false)], at), us);
  }

  /** A pass that claims entry 1, which its scan misses, runs the handler as if for the
      second time. */
  lemma PassOne(ts: Timed, env: Envelope, a: nat, b: nat, at: int) returns (ticks: seq<Tick>, us: Timed)
    requires Pending(ts.s, env, a, b) && ts.now <= at && !IsIdle(ts.last, 0, at) && IsIdle(ts.last, 1, at)
    ensures TimedSteps(ts, ticks, us) && us.last == ts.last[1 := at] && us.now == at
    ensures Pending(us.s, env, a, b + 1) && us.s.hist.calls == ts.s.hist.calls + [Job(1, 2)]
  {
    var first, ms := PassStarts(ts, env, a, b, [1], at);
    assert StampAll(ts.last, [1], at) == ts.last[1 := at] by {
      assert [1][1..] == [];
    }
    assert Loaded(ms.s, true, Job(1, 2)) && ms.s.srv.stream[1] == Good(env);
    hide Steps, Loaded, Calm, TimedSteps;
    var acts, t := ServeOne(ms.s, true, Job(1, 2));
    us := Timed(t, ms.last, at);
    hide StampAll, Resting;
    AtOnce(ms, acts, t);
    ticks := first + AllAt(acts, at);
    TimedJoin(ts, first, ms, AllAt(acts, at), us);
  }

  /** A pass while nothing is idle. */
  lemma PassNone(ts: Timed, env: Envelope, a: nat, b: nat, at: int) returns (ticks: seq<Tick>, us: Timed)
    requires Pending(ts.s, env, a, b) && ts.now <= at && !IsIdle(ts.last, 0, at) && !IsIdle(ts.last, 1, at)
    ensures TimedSteps(ts, ticks, us) && us.last == ts.last && us.now == at
    ensures Pending(us.s, env, a, b) && us.s.hist.calls == ts.s.hist.calls
  {
    ticks, us := PassStarts(ts, env, a, b, [], at);
    hide TimedSteps;
  }

  /** Where a cycle begins: entry 0 became idle just now, entry 1 does one period later. */
  predicate CycleStart(ts: Timed, env: Envelope, a: nat, b: nat, at: int) {
    && Pending(ts.s, env, a, b) && ts.now <= at
    && ts.last == map[0 := at - CLAIM_MIN_IDLE, 1 := at - CLAIM_MIN_IDLE + CLAIM_PERIOD]
  }

  /** Five passes, one per period: entry 0, entry 1, and three while nothing is idle. */
  lemma Cycle(ts: Timed, env: Envelope, a: nat, b: nat, at: int) returns (ticks: seq<Tick>, us: Timed)
    requires CycleStart(ts, env, a, b, at)
    ensures TimedSteps(ts, ticks, us) && CycleStart(us, env, a + 1, b + 1, at + CLAIM_MIN_IDLE)
    ensures us.s.hist.calls == ts.s.hist.calls + [Job(1, 2)]
  {
    hide Pending, TimedSteps;
    var t0, s1 := PassZero(ts, env, a, b, at);
    var t1, s2 := PassOne(s1, env, a + 1, b, at + CLAIM_PERIOD);
    var t2, s3 := PassNone(s2, env, a + 1, b + 1, at + 2 * CLAIM_PERIOD);
    var t3, s4 := PassNone(s3, env, a + 1, b + 1, at + 3 * CLAIM_PERIOD);
    var t4, s5 := PassNone(s4, env, a + 1, b + 1, at + 4 * CLAIM_PERIOD);
    us := s5;
    TimedJoin(ts, t0, s1, t1, s2);
    TimedJoin(ts, t0 + t1, s2, t2, s3);
    TimedJoin(ts, t0 + t1 + t2, s3, t3, s4);
    TimedJoin(ts, t0 + t1 + t2 + t3, s4, t4, s5);
    ticks := t0 + t1 + t2 + t3 + t4;
  }

  function Repeat(n: nat): (jobs: seq<Job>)
    ensures |jobs| == n && forall i :: 0 <= i < n ==> jobs[i] == Job(1, 2)
  {
    seq(n, i => Job(1, 2))
  }

  lemma {:induction false} Cycles(ts: Timed, env: Envelope, a: nat, b: nat, at: int, n: nat)
    returns (ticks: seq<Tick>, us: Timed)
    requires CycleStart(ts, env, a, b, at)
    ensures TimedSteps(ts, ticks, us) && us.s.hist.calls == ts.s.hist.calls + Repeat(n)
    ensures us.s.srv.stream == [OFFSET_FRAME, Good(env)]
    decreases n
  {
    if n == 0 {
      ticks, us := [], ts;
      assert ts.s.hist.calls + Repeat(0) == ts.s.hist.calls;
    } else {
      hide CycleStart, TimedSteps;
      var first, ms := Cycle(ts, env, a, b, at);
      var more;
      more, us := Cycles(ms, env, a + 1, b + 1, at + CLAIM_MIN_IDLE, n - 1);
      TimedJoin(ts, first, ms, more, us);
      ticks := first + more;
      assert ts.s.hist.calls + [Job(1, 2)] + Repeat(n - 1) == ts.s.hist.calls + Repeat(n);
    }
  }

  // ------------------------------------------------------------ from the start

  /** Both entries are added and the consumer has read the first next of them. */
  predicate Fed(s: State, env: Envelope, next: nat, pel: map<nat, nat>) {
    Calm(s) && s.srv == TwoEntries(env, next, pel) && s.proc.claimer == NO_BATCH && s.proc.scan.None? &&
      s.hist.calls == []
  }

  lemma AddBoth(env: Envelope) returns (acts: seq<Action>, t: State)
    requires ValidIdentity(env)
    ensures Steps(Init(5, 1, 0), acts, t) && DeliversNothing(acts)
    ensures Fed(t, env, 0, map[]) && t.proc.reader == NO_BATCH
  {
    hide ValidIdentity;
    var s := Init(5, 1, 0);
    var m := Apply(s, Add(OFFSET_FRAME));
    t := Apply(m, Add(Good(env)));
    OneStep(s, Add(OFFSET_FRAME), m);
    OneStep(m, Add(Good(env)), t);
    acts := [Add(OFFSET_FRAME)] + [Add(Good(env))];
    assert t.srv.stream == [OFFSET_FRAME, Good(env)];
    hide Apply, Enabled, Steps;
    StepsJoin(s, [Add(OFFSET_FRAME)], m, [Add(Good(env))], t);
  }

  /** One entry is read. */
  lemma ReadOne(s: State, env: Envelope, next: nat, pel: map<nat, nat>) returns (t: State)
    requires Fed(s, env, next, pel) && s.proc.reader == NO_BATCH && next < 2
    ensures Enabled(s, Read(1, false)) && Apply(s, Read(1, false)) == t
    ensures Fed(t, env, next + 1, pel[next := 1]) && t.proc.reader == Front([Job(next, 1)], false)
  {
    t := DoRead(s, 1, false);
    assert Delivered(next, 0) == map[] && Delivered(next, 1) == map[next := 1];
    assert pel + map[next := 1] == pel[next := 1];
    assert t.proc.reader.jobs == [Job(next, 1)];
    GiveAllEffects(s.hist, t.proc.reader.jobs, false);
    hide GiveAll;
  }

  lemma FirstRowRefused(s: State, env: Envelope) returns (t: State)
    requires Fed(s, env, 1, map[0 := 1]) && s.proc.reader == Front([Job(0, 1)], false)
    ensures Steps(s, [BatchRow(false, false, false)], t)
    ensures Fed(t, env, 1, map[0 := 1]) && t.proc.reader == NO_BATCH
  {
    t := Apply(s, BatchRow(false, false, false));
    assert [Job(0, 1)][1..] == [];
    OneStep(s, BatchRow(false, false, false), t);
    hide Steps;
  }

  /** Entry 0 is read at time 0 and fails to be dead-lettered. */
  lemma FirstRead(ts: Timed, env: Envelope) returns (ticks: seq<Tick>, us: Timed)
    requires Fed(ts.s, env, 0, map[]) && ts.s.proc.reader == NO_BATCH && ts.last == map[] && ts.now == 0
    ensures TimedSteps(ts, ticks, us) && Fed(us.s, env, 1, map[0 := 1]) && us.s.proc.reader == NO_BATCH
    ensures us.last == map[0 := 0] && us.now == 0
  {
    var m := ReadOne(ts.s, env, 0, map[]);
    var ms := Timed(m, Stamp(ts.last, 0, 1, 0), 0);
    assert Stamp(map[], 0, 0, 0) == map[];
    assert map[][0 := 1] == map[0 := 1] && ms.last == map[0 := 0];
    var t := FirstRowRefused(m, env);
    us := Timed(t, ms.last, 0);
    hide Apply, Enabled, Stamp;
    TimedOne(ts, Tick(0, Read(1, false)), ms);
    hide TimedSteps, Steps, Fed;
    AtOnce(ms, [BatchRow(false, false, false)], t);
    ticks := [Tick(0, Read(1, false))] + AllAt([BatchRow(false, false, false)], 0);
    TimedJoin(ts, [Tick(0, Read(1, false))], ms, AllAt([BatchRow(false, false, false)], 0), us);
  }

  /** Entry 1 is read one period later and its handler fails. */
  lemma SecondRead(ts: Timed, env: Envelope) returns (ticks: seq<Tick>, us: Timed)
    requires Fed(ts.s, env, 1, map[0 := 1]) && ts.s.proc.reader == NO_BATCH && ts.last == map[0 := 0] && ts.now == 0
    ensures TimedSteps(ts, ticks, us) && CycleStart(us, env, 1, 1, CLAIM_MIN_IDLE)
    ensures us.s.hist.calls == [Job(1, 1)]
  {
    var m := ReadOne(ts.s, env, 1, map[0 := 1]);
    var ms := Timed(m, Stamp(ts.last, 1, 1, CLAIM_PERIOD), CLAIM_PERIOD);
    assert Stamp(ts.last, 1, 0, CLAIM_PERIOD) == ts.last;
    assert ms.last == map[0 := 0, 1 := CLAIM_PERIOD];
    assert map[0 := 1][1 := 1] == map[0 := 1, 1 := 1];
    assert Loaded(m, false, Job(1, 1)) && m.srv.stream[1] == Good(env);
    hide Apply, Enabled, Stamp, Steps, Loaded;
    TimedOne(ts, Tick(CLAIM_PERIOD, Read(1, false)), ms);
    hide TimedSteps, Calm;
    var acts, t := ServeOne(m, false, Job(1, 1));
    us := Timed(t, ms.last, CLAIM_PERIOD);
    assert [] + [Job(1, 1)] == [Job(1, 1)];
    AtOnce(ms, acts, t);
    ticks := [Tick(CLAIM_PERIOD, Read(1, false))] + AllAt(acts, CLAIM_PERIOD);
    TimedJoin(ts, [Tick(CLAIM_PERIOD, Read(1, false))], ms, AllAt(acts, CLAIM_PERIOD), us);
  }

  lemma Opening(env: Envelope) returns (ticks: seq<Tick>, us: Timed)
    requires ValidIdentity(env)
    ensures TimedSteps(Timed(Init(5, 1, 0), map[], 0), ticks, us)
    ensures CycleStart(us, env, 1, 1, CLAIM_MIN_IDLE) && us.s.hist.calls == [Job(1, 1)]
  {
    hide Steps, Fed, CycleStart, TimedSteps, Init, ValidIdentity;
    var acts, s := AddBoth(env);
    var ts := Timed(Init(5, 1, 0), map[], 0);
    var ms := Timed(s, map[], 0);
    AtOnce(ts, acts, s);
    var first, ns := FirstRead(ms, env);
    var second;
    second, us := SecondRead(ns, env);
    TimedJoin(ts, AllAt(acts, 0), ms, first, ns);
    TimedJoin(ts, AllAt(acts, 0) + first, ns, second, us);
    ticks := AllAt(acts, 0) + first + second;
  }

  lemma {:induction false} RepeatCalls(n: nat)
    ensures CallsFor([Job(1, 1)] + Repeat(n), 1) == n + 1
  {
    var calls := [Job(1, 1)] + Repeat(n);
    if n == 0 {
      assert calls == [Job(1, 1)] && calls[..0] == [];
    } else {
      RepeatCalls(n - 1);
      assert calls[..|calls| - 1] == [Job(1, 1)] + Repeat(n - 1);
    }
  }

  /** With a scan limit of 1 and an entry that can neither be decoded nor dead-lettered in
      front of it, an ordinary failing event is handed to its handler as attempt 2 any
      number of times, on a server that claims by idle time, with the default periods and a
      budget of 5. */
  lemma BlindClaimsNeverEnd(env: Envelope, n: nat)
    requires ValidIdentity(env)
    ensures exists ticks, us ::
      && TimedSteps(Timed(Init(5, 1, 0), map[], 0), ticks, us)
      && us.s.hist.calls == [Job(1, 1)] + Repeat(n) && CallsFor(us.s.hist.calls, 1) == n + 1
      && us.s.srv.stream == [OFFSET_FRAME, Good(env)] && !HasWritableRow(us.s.srv.stream, 0)
  {
    hide ValidIdentity, TimedSteps, CycleStart, Init;
    var first, ms := Opening(env);
    var more, us := Cycles(ms, env, 1, 1, CLAIM_MIN_IDLE, n);
    TimedJoin(Timed(Init(5, 1, 0), map[], 0), first, ms, more, us);
    RepeatCalls(n);
    hide HasWritableRow;
    OffsetFrameRefused(us.s.srv.stream);
  }

  /** So the handler may run for one entry more often than the budget allows. */
  lemma BudgetExceeded(env: Envelope, n: nat)
    requires ValidIdentity(env)
    ensures exists acts, s ::
      Steps(Init(5, 1, 0), acts, s) && CallsFor(s.hist.calls, 1) > n && SomeBlindClaim(Init(5, 1, 0), acts)
  {
    hide ValidIdentity, TimedSteps, CallsFor, HasWritableRow, Steps, SomeBlindClaim, Init;
    BlindClaimsNeverEnd(env, n + 5);
    var ticks, us :|
      && TimedSteps(Timed(Init(5, 1, 0), map[], 0), ticks, us)
      && us.s.hist.calls == [Job(1, 1)] + Repeat(n + 5) && CallsFor(us.s.hist.calls, 1) == n + 5 + 1;
    assert us.s.hist.calls[1] == us.s.hist.calls[2] == Job(1, 2);
    TimedIsRun(Timed(Init(5, 1, 0), map[], 0), ticks, us);
    if !SomeBlindClaim(Init(5, 1, 0), Actions(ticks)) {
      RetryBudget(5, 1, 0, Actions(ticks), us.s, 1);
    }
  }
}
