// Every step of the Redis consumer keeps the retry budget, and what follows for runs.

module RedisRuns {
  import opened Identity
  import opened Sums
  import D = Dispatcher
  import G = Dedupe
  import opened SerialGuard
  import opened RedisModel
  import opened RedisSafety
  import opened RedisBudget

  // ---------------------------------------------- steps that hand nothing out

  ghost predicate TailOf(jobs: seq<Job>, jobs': seq<Job>) {
    jobs' == jobs || jobs' == [] || (jobs != [] && jobs' == jobs[1..])
  }

  /** The pending list only loses entries. */
  ghost predicate PelShrinks(srv: Server, srv': Server) {
    && srv'.next == srv.next && srv.stream <= srv'.stream
    && (forall id :: id in srv'.pel ==> id in srv.pel && srv'.pel[id] == srv.pel[id])
  }

  ghost predicate SameBooks(h: History, h': History) {
    h'.given == h.given && h'.place == h.place && h'.calls == h.calls && h'.epoch == h.epoch && h'.blind == h.blind
  }

  ghost predicate PastKept(p: Process, p': Process) {
    forall run :: PastCall(p, run) ==> PastCall(p', run)
  }

  ghost predicate SameTally(d: D.State, d': D.State) {
    d'.accepted == d.accepted && d'.completed == d.completed
  }

  lemma GivenShrinks(srv: Server, srv': Server, h: History, h': History, id: nat)
    requires PelShrinks(srv, srv') && GivenOk(srv, h, id) && h'.given == h.given
    ensures GivenOk(srv', h', id)
  {
    hide Rising;
  }

  lemma ScanShrinks(srv: Server, srv': Server, scan: Option<map<nat, nat>>)
    requires PelShrinks(srv, srv') && ScanOk(srv, scan)
    ensures ScanOk(srv', scan)
  {
  }

  lemma TailPlaced(h: History, h': History, jobs: seq<Job>, jobs': seq<Job>, claimed: bool)
    requires BatchPlaced(h, jobs, claimed) && h'.place == h.place && TailOf(jobs, jobs')
    ensures BatchPlaced(h', jobs', claimed)
  {
  }

  lemma SamePlacesOk(h: History, h': History)
    requires PlacesOk(h) && SameBooks(h, h')
    ensures PlacesOk(h')
  {
  }

  lemma SameAcceptedPlaced(h: History, h': History, d: D.State, d': D.State, max: nat)
    requires AcceptedPlaced(h, d, max) && d'.accepted == d.accepted && h'.place == h.place && h'.epoch == h.epoch
    ensures AcceptedPlaced(h', d', max)
  {
    forall run, i | 0 <= i < |At(d'.accepted, run)|
      ensures TaskPlaced(h', At(d'.accepted, run)[i], i, max)
    {
      assert TaskPlaced(h, At(d.accepted, run)[i], i, max);
    }
  }

  /** Called jobs were handed out, so their entries are in the stream. */
  lemma CalledDelivered(s: State, job: Job)
    requires Budget(s) && job in s.hist.place && s.srv.next <= |s.srv.stream|
    ensures job.id < |s.srv.stream| && job.attempt >= 1
  {
    assert GivenOk(s.srv, s.hist, job.id);
    hide BatchPlaced, AcceptedPlaced, CallsOk, ScanOk;
    var i :| 0 <= i < |GivenTo(s.hist, job.id)| && GivenTo(s.hist, job.id)[i] == job.attempt;
  }

  lemma CallKept(stream: seq<Frame>, stream': seq<Frame>, p: Process, p': Process, h: History, h': History, job: Job)
    requires CallPlaced(stream, p, h, job) && stream <= stream' && job.id < |stream|
    requires p'.disp.completed == p.disp.completed && PastKept(p, p')
    requires job in h'.place && h'.place[job] == h.place[job] && h'.epoch == h.epoch
    ensures CallPlaced(stream', p', h', job)
  {
    assert RunOfEntry(stream', job.id) == RunOfEntry(stream, job.id);
    hide PastCall, RunOfEntry;
  }

  lemma CallsKept(s: State, t: State)
    requires Budget(s) && s.srv.next <= |s.srv.stream| && s.srv.stream <= t.srv.stream
    requires t.proc.disp.completed == s.proc.disp.completed && PastKept(s.proc, t.proc)
    requires t.hist.calls == s.hist.calls && t.hist.epoch == s.hist.epoch && t.maxAttempts == s.maxAttempts
    requires forall job :: job in s.hist.calls ==> job in s.hist.place ==>
      job in t.hist.place && t.hist.place[job] == s.hist.place[job]
    ensures CallsOk(t.srv.stream, t.proc, t.hist, t.maxAttempts)
  {
    forall i | 0 <= i < |t.hist.calls|
      ensures CallPlaced(t.srv.stream, t.proc, t.hist, t.hist.calls[i]) && 1 <= t.hist.calls[i].attempt <= t.maxAttempts
    {
      var job := s.hist.calls[i];
      assert CallPlaced(s.srv.stream, s.proc, s.hist, job);
      CalledDelivered(s, job);
      hide Budget, PastKept;
      CallKept(s.srv.stream, t.srv.stream, s.proc, t.proc, s.hist, t.hist, job);
    }
    hide CallPlaced, PastKept, ScanOk, BatchPlaced, PlacesOk, AcceptedPlaced, GivenOk;
  }

  /** A step that hands out nothing, accepts nothing, completes nothing and calls no
      handler keeps the budget. */
  lemma QuietStep(s: State, t: State)
    requires Budget(s) && s.srv.next <= |s.srv.stream| && t.maxAttempts == s.maxAttempts
    requires PelShrinks(s.srv, t.srv) && SameBooks(s.hist, t.hist) && SameTally(s.proc.disp, t.proc.disp)
    requires PastKept(s.proc, t.proc)
    requires t.proc.scan == s.proc.scan || ScanOk(t.srv, t.proc.scan)
    requires TailOf(s.proc.reader.jobs, t.proc.reader.jobs) && TailOf(s.proc.claimer.jobs, t.proc.claimer.jobs)
    ensures Budget(t)
  {
    hide PastKept;
    forall id ensures GivenOk(t.srv, t.hist, id) {
      assert GivenOk(s.srv, s.hist, id);
      GivenShrinks(s.srv, t.srv, s.hist, t.hist, id);
    }
    hide PelShrinks, GivenOk, ScanOk, BatchPlaced, PlacesOk, AcceptedPlaced, CallsOk, TailOf;
    if t.proc.scan == s.proc.scan {
      ScanShrinks(s.srv, t.srv, s.proc.scan);
    }
    TailPlaced(s.hist, t.hist, s.proc.reader.jobs, t.proc.reader.jobs, false);
    TailPlaced(s.hist, t.hist, s.proc.claimer.jobs, t.proc.claimer.jobs, true);
    SamePlacesOk(s.hist, t.hist);
    SameAcceptedPlaced(s.hist, t.hist, s.proc.disp, t.proc.disp, s.maxAttempts);
    assert s.srv.stream <= t.srv.stream by { ShrinksStream(s.srv, t.srv); }
    CallsKept(s, t);
  }

  lemma ShrinksStream(srv: Server, srv': Server)
    requires PelShrinks(srv, srv')
    ensures srv.stream <= srv'.stream
  {
  }

  /** A delivery that moves on after its lookup keeps every call accounted for. */
  lemma StageMoves(p: Process, p': Process, w: nat, stage: Stage)
    requires p'.disp == p.disp && p'.stages == p.stages[w := stage]
    requires w in p.stages && (stage.Lookup? || stage.Call? ==> p.stages[w].Lookup? || p.stages[w].Call?)
    ensures PastKept(p, p')
  {
    forall run | PastCall(p, run) ensures PastCall(p', run) {
      var v :| Busy(p.disp, v) && p.disp.workers[v].run == run && v in p.stages && !p.stages[v].Lookup? &&
        !p.stages[v].Call?;
      assert Busy(p'.disp, v) && v in p'.stages && !p'.stages[v].Lookup? && !p'.stages[v].Call?;
    }
  }

  lemma BusyStays(p: Process, p': Process)
    requires SameBusy(p.disp, p'.disp) && p'.stages == p.stages
    ensures PastKept(p, p')
  {
    forall run | PastCall(p, run) ensures PastCall(p', run) {
      var v :| Busy(p.disp, v) && p.disp.workers[v].run == run && v in p.stages && !p.stages[v].Lookup? &&
        !p.stages[v].Call?;
      assert Busy(p'.disp, v) && p'.disp.workers[v] == p.disp.workers[v];
    }
  }

  lemma TakeStays(s: State, w: nat)
    requires D.Enabled(s.proc.disp, D.DoTake(w))
    ensures PastKept(s.proc, DoTake(s, w).proc) && SameTally(s.proc.disp, DoTake(s, w).proc.disp)
  {
    var p := s.proc;
    var p' := DoTake(s, w).proc;
    forall run | PastCall(p, run) ensures PastCall(p', run) {
      var v :| Busy(p.disp, v) && p.disp.workers[v].run == run && v in p.stages && !p.stages[v].Lookup? &&
        !p.stages[v].Call?;
      assert v != w && p'.disp.workers[v] == p.disp.workers[v] && p'.stages[v] == p.stages[v];
      assert Busy(p'.disp, v);
    }
  }

  predicate IsQuiet(a: Action) {
    a.Add? || a.GiveUpScan? || a.Cancel? || a.Close? || IsBatchMove(a)
  }

  /** Steps of a batch other than the send. */
  predicate IsBatchMove(a: Action) {
    a.BatchRow? || a.BatchAck? || a.BatchSkip?
  }

  lemma QuietBudget(s: State, a: Action)
    requires Enabled(s, a) && IsQuiet(a) && Budget(s) && s.srv.next <= |s.srv.stream|
    ensures Budget(Apply(s, a))
  {
    if IsBatchMove(a) {
      BatchMoveBudget(s, a);
    } else {
      hide Budget, ForDlq, PastCall, ValidIdentity, D.Enabled, OnStage, XPending, IsBatchMove;
      BusyStays(s.proc, Apply(s, a).proc);
      hide PastKept, Busy;
      QuietStep(s, Apply(s, a));
    }
  }

  lemma BatchMoveBudget(s: State, a: Action)
    requires Enabled(s, a) && IsBatchMove(a) && Budget(s) && s.srv.next <= |s.srv.stream|
    ensures Budget(Apply(s, a))
  {
    hide Budget, ForDlq, PastCall, ValidIdentity, D.Enabled, OnStage, XPending;
    BusyStays(s.proc, Apply(s, a).proc);
    hide PastKept, Busy;
    QuietStep(s, Apply(s, a));
  }

  lemma TakeBudget(s: State, w: nat)
    requires Enabled(s, Take(w)) && Budget(s) && s.srv.next <= |s.srv.stream|
    ensures Budget(Apply(s, Take(w)))
  {
    TakeStays(s, w);
    hide Budget, PastCall, D.Take, PastKept, D.Enabled;
    QuietStep(s, DoTake(s, w));
  }

  lemma MoveBudget(s: State, a: D.Action)
    requires Enabled(s, DispatcherMove(a)) && Budget(s) && s.srv.next <= |s.srv.stream|
    ensures Budget(Apply(s, DispatcherMove(a)))
  {
    hide Budget, PastCall, D.Apply, PastKept, D.Enabled, IsMove, SameBusy;
    MoveKeepsBusy(s.proc.disp, a);
    BusyStays(s.proc, Apply(s, DispatcherMove(a)).proc);
    QuietStep(s, Apply(s, DispatcherMove(a)));
  }

  predicate MovesStage(a: Action) {
    a.FindDone? || a.Mark? || a.Decide? || a.TaskRow? || a.TaskAck?
  }

  lemma StageBudget(s: State, a: Action)
    requires Enabled(s, a) && MovesStage(a) && Budget(s) && s.srv.next <= |s.srv.stream|
    ensures Budget(Apply(s, a))
  {
    hide Budget, PastCall, PastKept, G.Check, G.Mark, G.GiveUp;
    var t := Apply(s, a);
    StageMoves(s.proc, t.proc, a.w, t.proc.stages[a.w]);
    QuietStep(s, t);
  }

  lemma ScanBudget(s: State)
    requires Enabled(s, Scan) && Inv(s) && Budget(s)
    ensures Budget(Apply(s, Scan))
  {
    var t := DoScan(s);
    assert forall id :: id in s.srv.pel ==> id < s.srv.next;
    hide Inv, Budget, PastCall;
    assert ScanOk(t.srv, t.proc.scan);
    BusyStays(s.proc, t.proc);
    hide PastKept, ScanOk, XPending;
    QuietStep(s, t);
  }

  // ------------------------------------------------------- handing out a batch

  lemma BatchKept(h: History, h': History, jobs: seq<Job>, claimed: bool)
    requires BatchPlaced(h, jobs, claimed) && SamePlaces(h, h')
    ensures BatchPlaced(h', jobs, claimed)
  {
  }

  lemma AcceptedKept(h: History, h': History, d: D.State, max: nat)
    requires AcceptedPlaced(h, d, max) && SamePlaces(h, h') && h'.epoch == h.epoch
    ensures AcceptedPlaced(h', d, max)
  {
    forall run, i | 0 <= i < |At(d.accepted, run)| ensures TaskPlaced(h', At(d.accepted, run)[i], i, max) {
      assert TaskPlaced(h, At(d.accepted, run)[i], i, max);
    }
  }

  /** Handing out a batch of new deliveries keeps the budget. */
  lemma GiveStep(s: State, t: State, jobs: seq<Job>, claimed: bool)
    requires Budget(s) && s.srv.next <= |s.srv.stream| && s.srv.stream == t.srv.stream && t.maxAttempts == s.maxAttempts
    requires Fresh(s.srv, t.srv, s.hist, jobs) && CountsRise(s.srv, t.srv) && ScanOk(t.srv, t.proc.scan)
    requires t.hist == GiveAll(s.hist, jobs, claimed) && t.proc.disp == s.proc.disp && t.proc.stages == s.proc.stages
    requires BatchOf(t.proc, claimed).jobs == jobs && BatchOf(t.proc, !claimed).jobs == BatchOf(s.proc, !claimed).jobs
    ensures Budget(t)
  {
    forall id ensures GivenOk(t.srv, t.hist, id) {
      assert GivenOk(s.srv, s.hist, id);
      GiveAllGiven(s.srv, t.srv, s.hist, jobs, claimed, id);
    }
    GiveAllEffects(s.hist, jobs, claimed);
    hide GivenOk, ScanOk, BatchPlaced, PlacesOk, AcceptedPlaced, CallsOk, GiveAll, Fresh, CountsRise, PastCall;
    GiveAllPlaces(s.srv, t.srv, s.hist, jobs, claimed);
    GiveAllKeeps(s.srv, t.srv, s.hist, jobs, claimed);
    BatchKept(s.hist, t.hist, BatchOf(s.proc, !claimed).jobs, !claimed);
    AcceptedKept(s.hist, t.hist, s.proc.disp, s.maxAttempts);
    BusyStays(s.proc, t.proc);
    hide PastKept;
    CallsKept(s, t);
  }

  lemma ReadFresh(srv: Server, h: History, n: nat, jobs: seq<Job>)
    requires forall id :: GivenOk(srv, h, id)
    requires forall id :: id in srv.pel ==> id < srv.next
    requires jobs == [] || jobs == seq(n, (i: nat) => Job(srv.next + i, 1))
    ensures Fresh(srv, XRead(srv, n), h, jobs) && CountsRise(srv, XRead(srv, n))
  {
    forall i | 0 <= i < |jobs| ensures FreshJob(XRead(srv, n), h, jobs[i]) {
      assert GivenOk(srv, h, jobs[i].id);
    }
    forall id | id in srv.pel ensures srv.pel[id] >= 1 {
      assert GivenOk(srv, h, id);
    }
  }

  lemma ReadScan(srv: Server, scan: Option<map<nat, nat>>, n: nat)
    requires ScanOk(srv, scan)
    ensures ScanOk(XRead(srv, n), scan)
  {
  }

  lemma ReadBudget(s: State, n: nat, lost: bool)
    requires Enabled(s, Read(n, lost)) && s.srv.next <= |s.srv.stream| && Budget(s)
    requires forall id :: id in s.srv.pel ==> id < s.srv.next
    ensures Budget(Apply(s, Read(n, lost)))
  {
    hide GivenOk, ScanOk, BatchPlaced, PlacesOk, AcceptedPlaced, CallsOk, GiveAll, Fresh, CountsRise, Delivered;
    var t := DoRead(s, n, lost);
    var jobs := t.proc.reader.jobs;
    ReadFresh(s.srv, s.hist, n, jobs);
    ReadScan(s.srv, s.proc.scan, n);
    GiveStep(s, t, jobs, false);
  }

  lemma ClaimFresh(srv: Server, h: History, scan: map<nat, nat>, ids: seq<nat>, lost: bool)
    requires forall id :: GivenOk(srv, h, id)
    requires ScanOk(srv, Some(scan)) && Increasing(ids) && (forall i :: 0 <= i < |ids| ==> ids[i] in srv.pel)
    requires forall id :: id in srv.pel ==> id < srv.next
    requires lost || !ClaimsBlindly(srv, scan, ids)
    ensures Fresh(srv, XAutoClaim(srv, ids), h, ClaimJobs(scan, ids, lost)) && CountsRise(srv, XAutoClaim(srv, ids))
  {
    var jobs := ClaimJobs(scan, ids, lost);
    forall i | 0 <= i < |jobs| ensures FreshJob(XAutoClaim(srv, ids), h, jobs[i]) {
      assert GivenOk(srv, h, ids[i]);
      assert !Missed(srv, scan, ids[i]);
    }
    forall id | id in srv.pel ensures srv.pel[id] >= 1 {
      assert GivenOk(srv, h, id);
    }
    hide GivenOk, ScanOk, ClaimsBlindly;
  }

  lemma ClaimBudget(s: State, ids: seq<nat>, lost: bool)
    requires Enabled(s, Claim(ids, lost)) && s.srv.next <= |s.srv.stream| && Budget(s)
    requires forall id :: id in s.srv.pel ==> id < s.srv.next
    requires ClaimHistory(s, ids, lost) == s.hist && (lost || !ClaimsBlindly(s.srv, s.proc.scan.value, ids))
    ensures Budget(Apply(s, Claim(ids, lost)))
  {
    var t := DoClaim(s, ids, lost);
    assert ScanOk(t.srv, t.proc.scan);
    hide GivenOk, ScanOk, BatchPlaced, PlacesOk, AcceptedPlaced, CallsOk, GiveAll, Fresh, CountsRise, Increasing;
    hide ClaimsBlindly, ClaimJobs;
    ClaimFresh(s.srv, s.hist, s.proc.scan.value, ids, lost);
    GiveStep(s, t, ClaimJobs(s.proc.scan.value, ids, lost), true);
  }

  // ------------------------------------------------- a job reaches its dispatcher

  lemma SendPlaces(h: History, h': History, job: Job, index: nat)
    requires PlacesOk(h) && job in h.place && h' == h.(place := h.place[job := InRun(h.epoch, index)])
    ensures PlacesOk(h')
  {
  }

  lemma SendBatches(h: History, h': History, jobs: seq<Job>, others: seq<Job>, claimed: bool, index: nat)
    requires BatchPlaced(h, jobs, claimed) && BatchPlaced(h, others, !claimed) && jobs != []
    requires h' == h.(place := h.place[jobs[0] := InRun(h.epoch, index)])
    ensures BatchPlaced(h', jobs[1..], claimed) && BatchPlaced(h', others, !claimed)
  {
  }

  lemma SendAccepted(h: History, h': History, d: D.State, d': D.State, job: Job, task: D.Task, max: nat)
    requires AcceptedPlaced(h, d, max) && job in h.place && h.place[job].InBatch?
    requires d'.accepted == Push(d.accepted, task.env.runId, task) && JobOfTask(task) == job && 1 <= job.attempt <= max
    requires h' == h.(place := h.place[job := InRun(h.epoch, |At(d.accepted, task.env.runId)|)])
    ensures AcceptedPlaced(h', d', max)
  {
    forall run, i | 0 <= i < |At(d'.accepted, run)| ensures TaskPlaced(h', At(d'.accepted, run)[i], i, max) {
      if i < |At(d.accepted, run)| {
        assert TaskPlaced(h, At(d.accepted, run)[i], i, max);
        assert At(d'.accepted, run)[i] == At(d.accepted, run)[i];
      }
    }
  }

  lemma JobAttempted(s: State, job: Job)
    requires Budget(s) && job in s.hist.place
    ensures job.attempt >= 1
  {
    assert GivenOk(s.srv, s.hist, job.id);
    hide BatchPlaced, AcceptedPlaced, CallsOk, ScanOk;
    var i :| 0 <= i < |GivenTo(s.hist, job.id)| && GivenTo(s.hist, job.id)[i] == job.attempt;
  }

  /** A called job is not in a batch any more. */
  lemma CalledNotInBatch(s: State, job: Job)
    requires Budget(s) && job in s.hist.place && s.hist.place[job].InBatch?
    ensures job !in s.hist.calls
  {
    hide GivenOk, ScanOk, BatchPlaced, PlacesOk, AcceptedPlaced;
    forall i | 0 <= i < |s.hist.calls| ensures s.hist.calls[i] != job {
      assert CallPlaced(s.srv.stream, s.proc, s.hist, s.hist.calls[i]);
    }
  }

  lemma BatchSendBudget(s: State, claimed: bool, q: nat, w: nat)
    requires Enabled(s, BatchSend(claimed, q, w)) && s.srv.next <= |s.srv.stream| && Budget(s)
    ensures Budget(Apply(s, BatchSend(claimed, q, w)))
  {
    var f := BatchOf(s.proc, claimed);
    var job := f.jobs[0];
    assert BatchPlaced(s.hist, f.jobs, claimed);
    JobAttempted(s, job);
    CalledNotInBatch(s, job);
    var task := Message(s.srv.stream[job.id], job);
    SendKeepsBusy(s.proc.disp, task, q, w);
    SendAccepts(s.proc.disp, task, q, w);
    hide ScanOk, AcceptedPlaced, CallsOk, PlacesOk, PastCall, D.TrySend, SameBusy, TailOf, GivenOk, D.Enabled;
    var t := DoBatchSend(s, claimed, q, w);
    BusyStays(s.proc, t.proc);
    BatchSendCounts(s, t, claimed, task, D.TrySend(s.proc.disp, task, q, w).1.Sent?);
  }

  lemma BatchSendCounts(s: State, t: State, claimed: bool, task: D.Task, sent: bool)
    requires Budget(s) && s.srv.next <= |s.srv.stream| && t.srv == s.srv && t.maxAttempts == s.maxAttempts
    requires BatchOf(s.proc, claimed).jobs != [] && BatchOf(t.proc, !claimed).jobs == BatchOf(s.proc, !claimed).jobs
    requires t.proc.scan == s.proc.scan && PastKept(s.proc, t.proc) && t.proc.disp.completed == s.proc.disp.completed
    requires var job := BatchOf(s.proc, claimed).jobs[0];
      JobOfTask(task) == job && 1 <= job.attempt <= s.maxAttempts && job in s.hist.place &&
        s.hist.place[job] == InBatch(claimed)
      && job !in s.hist.calls
    requires !sent ==> t.hist == s.hist && t.proc.disp.accepted == s.proc.disp.accepted
    requires !sent ==> TailOf(BatchOf(s.proc, claimed).jobs, BatchOf(t.proc, claimed).jobs)
    requires sent ==>
      && t.proc.disp.accepted == Push(s.proc.disp.accepted, task.env.runId, task)
      && t.hist == s.hist.(place :=
           s.hist.place[BatchOf(s.proc, claimed).jobs[0] :=
             InRun(s.hist.epoch, |At(s.proc.disp.accepted, task.env.runId)|)])
      && BatchOf(t.proc, claimed).jobs == BatchOf(s.proc, claimed).jobs[1..]
    ensures Budget(t)
  {
    hide PastKept;
    if sent {
      var f := BatchOf(s.proc, claimed);
      var index := |At(s.proc.disp.accepted, task.env.runId)|;
      forall id ensures GivenOk(t.srv, t.hist, id) {
        assert GivenOk(s.srv, s.hist, id);
      }
      hide GivenOk, ScanOk, BatchPlaced, PlacesOk, AcceptedPlaced, CallsOk, TailOf;
      SendPlaces(s.hist, t.hist, f.jobs[0], index);
      SendBatches(s.hist, t.hist, f.jobs, BatchOf(s.proc, !claimed).jobs, claimed, index);
      SendAccepted(s.hist, t.hist, s.proc.disp, t.proc.disp, f.jobs[0], task, s.maxAttempts);
      CallsKept(s, t);
    } else {
      hide Budget, TailOf;
      QuietStep(s, t);
    }
  }

  // ----------------------------------------------------- the handler is called

  /** The job a worker runs is the next of its run to complete. */
  lemma RunningJob(s: State, w: nat)
    requires Inv(s) && Budget(s) && Busy(s.proc.disp, w) && TaskOf(s.proc.disp, w).entry.Some?
    ensures var run := s.proc.disp.workers[w].run;
      && RunOfEntry(s.srv.stream, JobOf(s, w).id) == run
      && JobOf(s, w) in s.hist.place && 1 <= JobOf(s, w).attempt <= s.maxAttempts
      && s.hist.place[JobOf(s, w)] == InRun(s.hist.epoch, |At(s.proc.disp.completed, run)|)
  {
    hide ServerOk, BatchOk, StagesOk, CommitsOk, GivenOk, ScanOk, BatchPlaced, PlacesOk, CallsOk, ValidIdentity, G.Inv,
         Linked;
    RunningTaskOk(s.srv, s.proc.disp, w);
    RunningTaskValid(s.proc.disp, w);
    RunningIndex(s.proc.disp, w);
    var run := s.proc.disp.workers[w].run;
    assert TaskPlaced(s.hist, At(s.proc.disp.accepted, run)[|At(s.proc.disp.completed, run)|],
      |At(s.proc.disp.completed, run)|, s.maxAttempts);
    hide D.Inv, TasksOk, AcceptedPlaced;
  }

  lemma RunningIndex(d: D.State, w: nat)
    requires D.Inv(d) && Busy(d, w)
    ensures var run := d.workers[w].run;
      |At(d.completed, run)| < |At(d.accepted, run)| && At(d.accepted, run)[|At(d.completed, run)|] == TaskOf(d, w)
  {
    assert D.WorkerOk(d, w);
  }

  /** No other worker of the run can have made a call. */
  lemma OnlyCaller(s: State, w: nat)
    requires Inv(s) && OnStage(s, w, Call)
    ensures !PastCall(s.proc, s.proc.disp.workers[w].run)
  {
    hide ServerOk, TasksOk, BatchOk, StagesOk, CommitsOk, TasksValid, Linked, G.Inv;
    var run := s.proc.disp.workers[w].run;
    forall v | Busy(s.proc.disp, v) && s.proc.disp.workers[v].run == run ensures v == w {
      assert D.Exclusive(s.proc.disp);
    }
  }

  /** A job about to reach the handler has never reached it. */
  lemma NotYetCalled(s: State, w: nat)
    requires Inv(s) && Budget(s) && OnStage(s, w, Call)
    ensures JobOf(s, w) !in s.hist.calls
  {
    RunningJob(s, w);
    OnlyCaller(s, w);
    hide Inv, GivenOk, ScanOk, BatchPlaced, PlacesOk, AcceptedPlaced, PastCall, RunOfEntry, OnStage;
    forall i | 0 <= i < |s.hist.calls| ensures s.hist.calls[i] != JobOf(s, w) {
      assert CallPlaced(s.srv.stream, s.proc, s.hist, s.hist.calls[i]);
    }
  }

  lemma CallerPast(p: Process, w: nat, run: string)
    requires Busy(p.disp, w) && p.disp.workers[w].run == run && w in p.stages && !p.stages[w].Lookup?
    requires !p.stages[w].Call?
    ensures PastCall(p, run)
  {
  }

  /** The call of the job being run is added to the calls. */
  lemma CallAdded(stream: seq<Frame>, p: Process, h: History, h': History, job: Job, max: nat)
    requires CallsOk(stream, p, h, max) && job !in h.calls && 1 <= job.attempt <= max && CallPlaced(stream, p, h, job)
    requires h'.place == h.place && h'.epoch == h.epoch && h'.calls == h.calls + [job]
    ensures CallsOk(stream, p, h', max)
  {
    forall i | 0 <= i < |h'.calls| ensures CallPlaced(stream, p, h', h'.calls[i]) && 1 <= h'.calls[i].attempt <= max {
      assert i < |h.calls| ==> CallPlaced(stream, p, h, h.calls[i]) && h'.calls[i] == h.calls[i];
      hide PastCall, RunOfEntry;
    }
    hide CallPlaced;
  }

  /** Everything about a handler call but its entry in the calls. */
  lemma CallQuiet(s: State, m: State, w: nat, stage: Stage)
    requires Budget(s) && s.srv.next <= |s.srv.stream| && OnStage(s, w, Call) && (stage.Record? || stage.Judge?)
    requires m.srv == s.srv && SameBooks(s.hist, m.hist) && m.maxAttempts == s.maxAttempts
    requires m.proc.disp == s.proc.disp && m.proc.stages == s.proc.stages[w := stage]
    requires m.proc.scan == s.proc.scan && m.proc.reader == s.proc.reader && m.proc.claimer == s.proc.claimer
    ensures Budget(m) && PastCall(m.proc, s.proc.disp.workers[w].run)
  {
    hide Budget, PastKept;
    StageMoves(s.proc, m.proc, w, stage);
    CallerPast(m.proc, w, s.proc.disp.workers[w].run);
    hide PastCall, OnStage;
    QuietStep(s, m);
  }

  lemma CallHandlerDoes(s: State, w: nat, success: bool)
    requires OnStage(s, w, Call)
    ensures var t := DoCallHandler(s, w, success);
      && t.srv == s.srv && t.maxAttempts == s.maxAttempts
      && t.proc.disp == s.proc.disp && t.proc.stages == s.proc.stages[w := if success then Record else Judge]
      && t.proc.scan == s.proc.scan && t.proc.reader == s.proc.reader && t.proc.claimer == s.proc.claimer
      && t.hist.calls == s.hist.calls + [JobOf(s, w)] && SameBooks(s.hist, t.hist.(calls := s.hist.calls))
  {
    hide G.Commit;
  }

  lemma CallHandlerBudget(s: State, w: nat, success: bool)
    requires OnStage(s, w, Call) && Inv(s) && Budget(s)
    ensures Budget(DoCallHandler(s, w, success))
  {
    var t := DoCallHandler(s, w, success);
    var m := t.(hist := t.hist.(calls := s.hist.calls));
    assert s.srv.next <= |s.srv.stream|;
    RunningJob(s, w);
    NotYetCalled(s, w);
    CallHandlerDoes(s, w, success);
    hide Inv, Budget, PastCall, CallsOk, RunOfEntry, DoCallHandler, JobOf;
    CallQuiet(s, m, w, t.proc.stages[w]);
    BudgetCalls(m);
    CallAdded(t.srv.stream, t.proc, m.hist, t.hist, JobOf(s, w), s.maxAttempts);
    hide OnStage, CallPlaced;
    BudgetWithCalls(m, t);
  }

  lemma BudgetCalls(s: State)
    requires Budget(s)
    ensures CallsOk(s.srv.stream, s.proc, s.hist, s.maxAttempts)
  {
  }

  lemma BudgetWithCalls(s: State, t: State)
    requires Budget(s) && t == s.(hist := s.hist.(calls := t.hist.calls))
    requires CallsOk(t.srv.stream, t.proc, t.hist, t.maxAttempts)
    ensures Budget(t)
  {
    forall id ensures GivenOk(t.srv, t.hist, id) {
      assert GivenOk(s.srv, s.hist, id);
    }
    hide CallsOk, GivenOk;
    SameAcceptedPlaced(s.hist, t.hist, s.proc.disp, t.proc.disp, s.maxAttempts);
    hide AcceptedPlaced;
  }

  // ------------------------------------------------ a task completes; new starts

  lemma ReturnPast(p: Process, p': Process, w: nat, run: string)
    requires Busy(p.disp, w) && p'.disp == D.Complete(p.disp, w) && p'.stages == p.stages - {w}
    requires run != p.disp.workers[w].run
    ensures PastCall(p, run) ==> PastCall(p', run)
  {
    if PastCall(p, run) {
      var v :| Busy(p.disp, v) && p.disp.workers[v].run == run && v in p.stages && !p.stages[v].Lookup? &&
        !p.stages[v].Call?;
      assert v != w && Busy(p'.disp, v) && v in p'.stages && p'.stages[v] == p.stages[v];
    }
  }

  lemma ReturnCall(s: State, t: State, w: nat, job: Job)
    requires Busy(s.proc.disp, w) && t == DoReturn(s, w) && CallPlaced(s.srv.stream, s.proc, s.hist, job)
    ensures CallPlaced(t.srv.stream, t.proc, t.hist, job)
  {
    var run := s.proc.disp.workers[w].run;
    var other := RunOfEntry(s.srv.stream, job.id);
    assert |At(t.proc.disp.completed, run)| == |At(s.proc.disp.completed, run)| + 1;
    if other != run {
      ReturnPast(s.proc, t.proc, w, other);
      assert At(t.proc.disp.completed, other) == At(s.proc.disp.completed, other);
    }
    hide PastCall, RunOfEntry;
  }

  lemma ReturnBudget(s: State, w: nat)
    requires Enabled(s, Return(w)) && Budget(s)
    ensures Budget(Apply(s, Return(w)))
  {
    var t := DoReturn(s, w);
    forall i | 0 <= i < |t.hist.calls|
      ensures CallPlaced(t.srv.stream, t.proc, t.hist, t.hist.calls[i]) && 1 <= t.hist.calls[i].attempt <= t.maxAttempts
    {
      assert CallPlaced(s.srv.stream, s.proc, s.hist, s.hist.calls[i]);
      ReturnCall(s, t, w, s.hist.calls[i]);
    }
    hide GivenOk, CallPlaced, ScanOk, BatchPlaced, PlacesOk;
    SameAcceptedPlaced(s.hist, t.hist, s.proc.disp, t.proc.disp, s.maxAttempts);
    hide AcceptedPlaced;
  }

  lemma EpochPlaces(h: History, h': History)
    requires PlacesOk(h) && h' == h.(epoch := h.epoch + 1)
    ensures PlacesOk(h')
  {
  }

  /** A new dispatcher: every earlier call belongs to an earlier epoch. */
  lemma EpochCalls(s: State, t: State)
    requires Budget(s) && t.hist == s.hist.(epoch := s.hist.epoch + 1) && t.maxAttempts == s.maxAttempts
    requires t.srv == s.srv
    ensures CallsOk(t.srv.stream, t.proc, t.hist, t.maxAttempts)
  {
    forall i | 0 <= i < |t.hist.calls|
      ensures CallPlaced(t.srv.stream, t.proc, t.hist, t.hist.calls[i]) && 1 <= t.hist.calls[i].attempt <= t.maxAttempts
    {
      assert CallPlaced(s.srv.stream, s.proc, s.hist, s.hist.calls[i]);
      hide PastCall, RunOfEntry, BatchPlaced, ScanOk, GivenOk;
    }
  }

  lemma EpochBudget(s: State, t: State)
    requires Budget(s) && t.hist == s.hist.(epoch := s.hist.epoch + 1) && t.maxAttempts == s.maxAttempts
    requires t.srv == s.srv
    requires t.proc.scan.None? && t.proc.reader == t.proc.claimer == NO_BATCH && t.proc.disp.accepted == map[]
    ensures Budget(t)
  {
    forall id ensures GivenOk(t.srv, t.hist, id) {
      assert GivenOk(s.srv, s.hist, id);
    }
    hide GivenOk;
    EpochCalls(s, t);
    hide CallsOk;
    EpochPlaces(s.hist, t.hist);
    hide PlacesOk;
  }

  /** Every step keeps the retry budget, as long as no claim is blind. */
  lemma StepBudget(s: State, a: Action)
    requires Enabled(s, a) && Inv(s) && BudgetOk(s)
    ensures BudgetOk(Apply(s, a))
  {
    var t := Apply(s, a);
    assert s.srv.next <= |s.srv.stream|;
    assert forall id :: id in s.srv.pel ==> id < s.srv.next;
    BlindByClaim(s, a);
    hide Inv, Budget;
    if !t.hist.blind {
      NextBudget(s, a);
    }
  }

  /** The step is a claim that hands out an entry its scan missed. */
  predicate IsBlind(s: State, a: Action) {
    a.Claim? && s.proc.scan.Some? && !a.lost && ClaimsBlindly(s.srv, s.proc.scan.value, a.ids)
  }

  lemma BlindByClaim(s: State, a: Action)
    requires Enabled(s, a)
    ensures Apply(s, a).hist.blind <==> s.hist.blind || IsBlind(s, a)
  {
    if a.Read? {
      GiveAllEffects(s.hist, DoRead(s, a.n, a.lost).proc.reader.jobs, false);
    } else if a.Claim? {
      GiveAllEffects(ClaimHistory(s, a.ids, a.lost), DoClaim(s, a.ids, a.lost).proc.claimer.jobs, true);
    }
    hide GiveAll, ClaimsBlindly;
  }

  lemma NextBudget(s: State, a: Action)
    requires Enabled(s, a) && Inv(s) && Budget(s) && s.srv.next <= |s.srv.stream|
    requires forall id :: id in s.srv.pel ==> id < s.srv.next
    requires !s.hist.blind && !IsBlind(s, a)
    ensures Budget(Apply(s, a))
  {
    hide Inv, Budget;
    match a
    case Read(n, lost) => ReadBudget(s, n, lost);
    case Scan => ScanBudget(s);
    case Claim(ids, lost) =>
      hide ClaimsBlindly;
      ClaimBudget(s, ids, lost);
    case BatchSend(claimed, q, w) => BatchSendBudget(s, claimed, q, w);
    case DispatcherMove(m) => MoveBudget(s, m);
    case Take(w) => TakeBudget(s, w);
    case Return(w) => ReturnBudget(s, w);
    case CallHandler(w, success) => CallHandlerBudget(s, w, success);
    case Restart => EpochBudget(s, Apply(s, a));
    case Crash => EpochBudget(s, Apply(s, a));
    case _ =>
      if IsQuiet(a) {
        QuietBudget(s, a);
      } else {
        StageBudget(s, a);
      }
  }

  lemma {:induction false} StepsBudget(s: State, acts: seq<Action>, t: State)
    requires Inv(s) && BudgetOk(s) && Steps(s, acts, t)
    ensures Inv(t) && BudgetOk(t)
    decreases |acts|
  {
    hide Inv, BudgetOk, Budget;
    if acts != [] {
      StepInv(s, acts[0]);
      StepBudget(s, acts[0]);
      StepsBudget(Apply(s, acts[0]), acts[1..], t);
    }
  }
}
