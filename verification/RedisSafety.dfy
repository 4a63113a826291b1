// No silent ack, and at most one success per event in one process lifetime.
//
// In every run, including crashes, lost replies and failed writes, an entry of the
// stream is not yet delivered, still pending, or acked with its event's effect
// committed or a dead-letter row written for it.

module RedisSafety {
  import opened Identity
  import opened Sums
  import D = Dispatcher
  import G = Dedupe
  import opened SerialGuard
  import opened RedisModel

  // --------------------------------------------------------------- invariant

  /** The entry has had its effect, or its dead-letter row. */
  ghost predicate Settled(srv: Server, effects: set<string>, id: nat) {
    id < |srv.stream| && (id in srv.rows || (srv.stream[id].Good? && srv.stream[id].env.eventId in effects))
  }

  ghost predicate ServerOk(srv: Server, effects: set<string>) {
    && srv.next <= |srv.stream|
    && (forall i :: 0 <= i < |srv.stream| && srv.stream[i].Good? ==> ValidIdentity(srv.stream[i].env))
    && (forall id :: id in srv.pel ==> id < srv.next)
    && (forall id: nat :: id < srv.next ==> id in srv.pel || id in srv.acked)
    && (forall id :: id in srv.acked ==> id < srv.next && id !in srv.pel && Settled(srv, effects, id))
  }

  /** The task was made from a decodable entry that has been delivered. */
  ghost predicate TaskOk(srv: Server, task: D.Task) {
    && task.entry.Some? && task.entry.value < srv.next && task.entry.value < |srv.stream|
    && srv.stream[task.entry.value].Good?
    && task == Message(srv.stream[task.entry.value], Job(task.entry.value, task.attempt))
  }

  ghost predicate TasksOk(srv: Server, d: D.State) {
    forall run, i :: 0 <= i < |At(d.accepted, run)| ==> TaskOk(srv, At(d.accepted, run)[i])
  }

  ghost predicate BatchOk(srv: Server, f: Front) {
    && (forall i :: 0 <= i < |f.jobs| ==> f.jobs[i].id < srv.next)
    && (f.written ==> f.jobs != [] && f.jobs[0].id in srv.rows)
  }

  /** What a delivery about to XACK has to show for it. */
  ghost predicate StageOk(srv: Server, effects: set<string>, g: G.Guard, stages: map<nat, Stage>, d: D.State, w: nat) {
    && w in stages && w in g.threads && g.threads[w].phase == PhaseOf(stages[w])
    && Busy(d, w) && TaskOf(d, w).entry.Some?
    && (stages[w].EffectAck? ==> TaskOf(d, w).env.eventId in effects)
    && (stages[w].RowAck? ==> TaskOf(d, w).entry.value in srv.rows)
  }

  ghost predicate StagesOk(srv: Server, effects: set<string>, p: Process) {
    && p.stages.Keys == p.guard.threads.Keys
    && (forall w :: w in p.stages ==> StageOk(srv, effects, p.guard, p.stages, p.disp, w))
  }

  ghost predicate CommitsOk(effects: set<string>, g: G.Guard) {
    forall e :: e in g.commits ==> e in effects
  }

  ghost predicate Inv(s: State) {
    && ServerOk(s.srv, s.hist.effects)
    && Serial(s.proc.disp, s.proc.guard)
    && TasksOk(s.srv, s.proc.disp)
    && BatchOk(s.srv, s.proc.reader) && BatchOk(s.srv, s.proc.claimer)
    && StagesOk(s.srv, s.hist.effects, s.proc)
    && CommitsOk(s.hist.effects, s.proc.guard)
    && s.maxAttempts >= 1
  }

  lemma InitInv(maxAttempts: int, count: int, queueSize: int)
    ensures Inv(Init(maxAttempts, count, queueSize))
  {
    InitSerial(queueSize);
  }

  // -------------------------------------------------------------- monotonicity

  /** The server and the effects only gain. */
  ghost predicate Grows(srv: Server, effects: set<string>, srv': Server, effects': set<string>) {
    && srv.stream <= srv'.stream && srv.next <= srv'.next && srv.rows <= srv'.rows && effects <= effects'
  }

  lemma GrowProcess(srv: Server, effects: set<string>, srv': Server, effects': set<string>, p: Process)
    requires Grows(srv, effects, srv', effects')
    ensures TasksOk(srv, p.disp) ==> TasksOk(srv', p.disp)
    ensures BatchOk(srv, p.reader) ==> BatchOk(srv', p.reader)
    ensures BatchOk(srv, p.claimer) ==> BatchOk(srv', p.claimer)
    ensures StagesOk(srv, effects, p) ==> StagesOk(srv', effects', p)
    ensures CommitsOk(effects, p.guard) ==> CommitsOk(effects', p.guard)
  {
    if TasksOk(srv, p.disp) {
      forall run, i | 0 <= i < |At(p.disp.accepted, run)| ensures TaskOk(srv', At(p.disp.accepted, run)[i]) {
        assert TaskOk(srv, At(p.disp.accepted, run)[i]);
      }
    }
    if StagesOk(srv, effects, p) {
      forall w | w in p.stages ensures StageOk(srv', effects', p.guard, p.stages, p.disp, w) {
        assert StageOk(srv, effects, p.guard, p.stages, p.disp, w);
      }
    }
  }

  lemma XAckOk(srv: Server, effects: set<string>, id: nat, done: bool)
    requires ServerOk(srv, effects) && id < srv.next && Settled(srv, effects, id)
    ensures ServerOk(XAck(srv, id, done), effects)
    ensures Grows(srv, effects, XAck(srv, id, done), effects)
  {
    var srv' := XAck(srv, id, done);
    forall j | j in srv'.acked ensures j < srv'.next && j !in srv'.pel && Settled(srv', effects, j) {
      assert j != id ==> Settled(srv, effects, j);
    }
  }

  lemma AddRowOk(srv: Server, effects: set<string>, id: nat, done: bool)
    requires ServerOk(srv, effects)
    ensures ServerOk(AddRow(srv, id, done), effects)
    ensures Grows(srv, effects, AddRow(srv, id, done), effects)
    ensures done ==> id in AddRow(srv, id, done).rows
  {
    var srv' := AddRow(srv, id, done);
    forall j | j in srv'.acked ensures Settled(srv', effects, j) {
      assert Settled(srv, effects, j);
    }
  }

  lemma EffectOk(srv: Server, effects: set<string>, event: string)
    requires ServerOk(srv, effects)
    ensures ServerOk(srv, effects + {event})
  {
    forall j | j in srv.acked ensures Settled(srv, effects + {event}, j) {
      assert Settled(srv, effects, j);
    }
  }

  lemma AddOk(srv: Server, effects: set<string>, frame: Frame)
    requires ServerOk(srv, effects) && (frame.Good? ==> ValidIdentity(frame.env))
    ensures var srv' := srv.(stream := srv.stream + [frame]);
      ServerOk(srv', effects) && Grows(srv, effects, srv', effects)
  {
    hide ValidIdentity;
    var srv' := srv.(stream := srv.stream + [frame]);
    forall j | j in srv'.acked ensures Settled(srv', effects, j) {
      assert Settled(srv, effects, j);
    }
    forall i | 0 <= i < |srv'.stream| && srv'.stream[i].Good? ensures ValidIdentity(srv'.stream[i].env) {
      assert i < |srv.stream| ==> srv'.stream[i] == srv.stream[i];
    }
  }

  lemma XReadOk(srv: Server, effects: set<string>, n: nat)
    requires ServerOk(srv, effects) && srv.next + n <= |srv.stream|
    ensures ServerOk(XRead(srv, n), effects) && Grows(srv, effects, XRead(srv, n), effects)
  {
    hide ValidIdentity;
    forall j | j in srv.acked ensures Settled(XRead(srv, n), effects, j) {
      assert Settled(srv, effects, j);
    }
  }

  lemma XAutoClaimOk(srv: Server, effects: set<string>, ids: seq<nat>)
    requires ServerOk(srv, effects)
    ensures ServerOk(XAutoClaim(srv, ids), effects) && Grows(srv, effects, XAutoClaim(srv, ids), effects)
  {
    hide ValidIdentity;
    forall j | j in srv.acked ensures Settled(XAutoClaim(srv, ids), effects, j) {
      assert Settled(srv, effects, j);
    }
  }

  // ------------------------------------------------- one lemma per kind of step

  lemma GiveAllEffects(h: History, jobs: seq<Job>, claimed: bool)
    ensures GiveAll(h, jobs, claimed).effects == h.effects
    ensures GiveAll(h, jobs, claimed).calls == h.calls && GiveAll(h, jobs, claimed).epoch == h.epoch
    ensures GiveAll(h, jobs, claimed).blind == h.blind
    decreases |jobs|
  {
  }

  /** What a step does to the memory of the process and to what the handler did: an event is
      remembered when its success is recorded and forgotten in a crash; only a successful
      call has an effect. */
  lemma MemoryStepExactly(s: State, a: Action)
    requires Enabled(s, a)
    ensures var t := Apply(s, a);
      && t.proc.guard.seen == (if a.Crash? then {}
                               else if a.Mark? then s.proc.guard.seen + {s.proc.guard.threads[a.w].event}
                               else s.proc.guard.seen)
      && t.hist.effects == (if a.CallHandler? && a.success then
                              s.hist.effects + {TaskOf(s.proc.disp, a.w).env.eventId}
                            else s.hist.effects)
      && t.hist.calls == (if a.CallHandler? then s.hist.calls + [JobOf(s, a.w)] else s.hist.calls)
      && t.proc.cancelled == (a.Cancel? || (s.proc.cancelled && !a.Restart? && !a.Crash?))
      && t.proc.closed == (a.Close? || (s.proc.closed && !a.Crash?))
      && (a.Crash? ==> t.proc.reader.jobs == t.proc.claimer.jobs == [] && t.proc.scan == None)
  {
    hide D.Enabled, D.Apply, D.TrySend, D.Take, D.Complete, ValidIdentity, ForDlq, XPending, ClaimsBlindly, GiveAll,
         OnStage, HasWritableRow;
    if a.Read? || a.Claim? {
      HandingOutStays(s, a);
      hide Apply, Enabled;
    }
  }

  lemma HandingOutStays(s: State, a: Action)
    requires Enabled(s, a) && (a.Read? || a.Claim?)
    ensures var t := Apply(s, a);
      && t.hist.effects == s.hist.effects && t.hist.calls == s.hist.calls
      && t.proc.guard == s.proc.guard && t.proc.cancelled == s.proc.cancelled && t.proc.closed == s.proc.closed
  {
    hide OnStage, ForDlq, XPending, ClaimsBlindly, ValidIdentity;
    if a.Read? {
      GiveAllEffects(s.hist, DoRead(s, a.n, a.lost).proc.reader.jobs, false);
    } else {
      GiveAllEffects(ClaimHistory(s, a.ids, a.lost), DoClaim(s, a.ids, a.lost).proc.claimer.jobs, true);
    }
    hide GiveAll;
  }

  /** Server commands and batches: the process part keeps its workers. */
  lemma ServerStep(s: State, t: State)
    requires Inv(s) && ServerOk(t.srv, t.hist.effects) && Grows(s.srv, s.hist.effects, t.srv, t.hist.effects)
    requires t.proc.disp == s.proc.disp && t.proc.guard == s.proc.guard && t.proc.stages == s.proc.stages
    requires t.maxAttempts == s.maxAttempts
    requires t.proc.reader != s.proc.reader ==> BatchOk(t.srv, t.proc.reader)
    requires t.proc.claimer != s.proc.claimer ==> BatchOk(t.srv, t.proc.claimer)
    ensures Inv(t)
  {
    GrowProcess(s.srv, s.hist.effects, t.srv, t.hist.effects, s.proc);
    hide ServerOk, Serial, TasksOk, BatchOk, CommitsOk;
    forall w | w in t.proc.stages ensures StageOk(t.srv, t.hist.effects, t.proc.guard, t.proc.stages, t.proc.disp, w) {
      assert StageOk(t.srv, t.hist.effects, s.proc.guard, s.proc.stages, s.proc.disp, w);
    }
  }

  lemma ReadInv(s: State, n: nat, lost: bool)
    requires Enabled(s, Read(n, lost)) && Inv(s)
    ensures Inv(Apply(s, Read(n, lost)))
  {
    hide ServerOk, Serial, TasksOk, StagesOk, CommitsOk, GiveAll, Delivered;
    var t := DoRead(s, n, lost);
    GiveAllEffects(s.hist, t.proc.reader.jobs, false);
    XReadOk(s.srv, s.hist.effects, n);
    ServerStep(s, t);
  }

  lemma ClaimInv(s: State, ids: seq<nat>, lost: bool)
    requires Enabled(s, Claim(ids, lost)) && Inv(s)
    ensures Inv(Apply(s, Claim(ids, lost)))
  {
    assert forall i :: 0 <= i < |ids| ==> ids[i] < s.srv.next;
    hide ServerOk, Serial, TasksOk, StagesOk, CommitsOk, GiveAll, ClaimsBlindly;
    var t := DoClaim(s, ids, lost);
    GiveAllEffects(ClaimHistory(s, ids, lost), t.proc.claimer.jobs, true);
    XAutoClaimOk(s.srv, s.hist.effects, ids);
    ServerStep(s, t);
  }

  lemma BatchRowInv(s: State, claimed: bool, done: bool, ok: bool)
    requires Enabled(s, BatchRow(claimed, done, ok)) && Inv(s)
    ensures Inv(Apply(s, BatchRow(claimed, done, ok)))
  {
    hide ServerOk, Serial, TasksOk, StagesOk, CommitsOk, ForDlq;
    AddRowOk(s.srv, s.hist.effects, BatchOf(s.proc, claimed).jobs[0].id, done);
    ServerStep(s, DoBatchRow(s, claimed, done, ok));
  }

  lemma BatchAckInv(s: State, claimed: bool, done: bool, ok: bool)
    requires Enabled(s, BatchAck(claimed, done, ok)) && Inv(s)
    ensures Inv(Apply(s, BatchAck(claimed, done, ok)))
  {
    assert s.srv.next <= |s.srv.stream|;
    hide ServerOk, Serial, TasksOk, StagesOk, CommitsOk, ForDlq;
    var id := BatchOf(s.proc, claimed).jobs[0].id;
    assert Settled(s.srv, s.hist.effects, id);
    XAckOk(s.srv, s.hist.effects, id, done);
    ServerStep(s, DoBatchAck(s, claimed, done, ok));
  }

  lemma BatchTaskOk(s: State, claimed: bool)
    requires Inv(s) && BatchOf(s.proc, claimed).jobs != [] && !ForDlq(s, BatchOf(s.proc, claimed).jobs[0])
    ensures var job := BatchOf(s.proc, claimed).jobs[0];
      var task := Message(s.srv.stream[job.id], job);
      TaskOk(s.srv, task) && ValidIdentity(task.env)
  {
    hide Serial, TasksOk, CommitsOk, ValidIdentity;
    var job := BatchOf(s.proc, claimed).jobs[0];
    IdentityIgnoresAttempt(s.srv.stream[job.id].env, job.attempt);
  }

  lemma BatchSendInv(s: State, claimed: bool, q: nat, w: nat)
    requires Enabled(s, BatchSend(claimed, q, w)) && Inv(s)
    ensures Inv(Apply(s, BatchSend(claimed, q, w)))
  {
    BatchTaskOk(s, claimed);
    hide ServerOk, Serial, TasksOk, CommitsOk, D.TrySend, TaskOk, ValidIdentity, D.Apply, OnStage, XPending;
    var f := BatchOf(s.proc, claimed);
    var task := Message(s.srv.stream[f.jobs[0].id], f.jobs[0]);
    SendSerial(s.proc.disp, s.proc.guard, task, q, w);
    SendAccepts(s.proc.disp, task, q, w);
    SendKeepsBusy(s.proc.disp, task, q, w);
    PushOk(s.srv, s.proc.disp, D.TrySend(s.proc.disp, task, q, w).0, task);
    var t := DoBatchSend(s, claimed, q, w);
    SameBusyStages(s, t);
  }

  lemma IdentityIgnoresAttempt(env: Envelope, attempt: int)
    ensures ValidIdentity(env.(attempt := attempt)) <==> ValidIdentity(env)
  {
    hide MatchesEventId, MatchesRunId, MatchesIdempotencyKey;
  }

  lemma PushOk(srv: Server, d: D.State, e: D.State, task: D.Task)
    requires TasksOk(srv, d) && TaskOk(srv, task)
    requires e.accepted == d.accepted || e.accepted == Push(d.accepted, task.env.runId, task)
    ensures TasksOk(srv, e)
  {
    hide TaskOk;
    forall run, i | 0 <= i < |At(e.accepted, run)| ensures TaskOk(srv, At(e.accepted, run)[i]) {
      assert i < |At(d.accepted, run)| ==> At(e.accepted, run)[i] == At(d.accepted, run)[i];
    }
  }

  lemma SameTasks(srv: Server, d: D.State, e: D.State)
    requires TasksOk(srv, d) && e.accepted == d.accepted
    ensures TasksOk(srv, e)
  {
    hide TaskOk;
  }

  lemma SameBusyStages(s: State, t: State)
    requires StagesOk(s.srv, s.hist.effects, s.proc) && SameBusy(s.proc.disp, t.proc.disp)
    requires t.srv == s.srv && t.hist.effects == s.hist.effects && t.proc.guard == s.proc.guard
    requires t.proc.stages == s.proc.stages
    ensures StagesOk(t.srv, t.hist.effects, t.proc)
  {
    forall w | w in t.proc.stages ensures StageOk(t.srv, t.hist.effects, t.proc.guard, t.proc.stages, t.proc.disp, w) {
      assert StageOk(s.srv, s.hist.effects, s.proc.guard, s.proc.stages, s.proc.disp, w);
    }
  }

  lemma DispatcherMoveInv(s: State, a: D.Action)
    requires Enabled(s, DispatcherMove(a)) && Inv(s)
    ensures Inv(Apply(s, DispatcherMove(a)))
  {
    hide ServerOk, Serial, TasksOk, BatchOk, CommitsOk, D.Apply, D.Enabled, IsMove, StagesOk, SameBusy;
    MoveSerial(s.proc.disp, s.proc.guard, a);
    MoveKeepsBusy(s.proc.disp, a);
    SameTasks(s.srv, s.proc.disp, D.Apply(s.proc.disp, a));
    SameBusyStages(s, Apply(s, DispatcherMove(a)));
  }

  /** The task a worker runs was made from a delivered, decodable entry. */
  lemma RunningTaskOk(srv: Server, d: D.State, w: nat)
    requires D.Inv(d) && TasksOk(srv, d) && Busy(d, w)
    ensures TaskOk(srv, TaskOf(d, w))
  {
    assert D.WorkerOk(d, w);
    var run := d.workers[w].run;
    assert At(d.accepted, run)[|At(d.completed, run)|] == TaskOf(d, w);
    hide TaskOk;
  }

  lemma TakeInv(s: State, w: nat)
    requires Enabled(s, Take(w)) && Inv(s)
    ensures Inv(Apply(s, Take(w)))
  {
    hide ServerOk, Serial, TasksOk, BatchOk, StagesOk, D.Take, TaskOk;
    var e := D.Take(s.proc.disp, w);
    TakeSerial(s.proc.disp, s.proc.guard, w);
    TakeKeepsAccepted(s.proc.disp, w);
    SameTasks(s.srv, s.proc.disp, e);
    SerialInv(e, G.Begin(s.proc.guard, w, TaskOf(e, w).env.eventId));
    RunningTaskOk(s.srv, e, w);
    TakeStages(s, w);
  }

  lemma TakeKeepsAccepted(d: D.State, w: nat)
    requires D.Enabled(d, D.DoTake(w))
    ensures D.Take(d, w).accepted == d.accepted
  {
  }

  lemma TakeStages(s: State, w: nat)
    requires D.Enabled(s.proc.disp, D.DoTake(w)) && StagesOk(s.srv, s.hist.effects, s.proc)
    requires Busy(D.Take(s.proc.disp, w), w) && TaskOk(s.srv, TaskOf(D.Take(s.proc.disp, w), w))
    requires w !in s.proc.guard.threads
    ensures StagesOk(s.srv, s.hist.effects, DoTake(s, w).proc)
  {
    var t := DoTake(s, w);
    forall v | v in t.proc.stages ensures StageOk(t.srv, t.hist.effects, t.proc.guard, t.proc.stages, t.proc.disp, v) {
      assert v != w ==> StageOk(s.srv, s.hist.effects, s.proc.guard, s.proc.stages, s.proc.disp, v);
    }
  }

  lemma SerialInv(d: D.State, g: G.Guard)
    requires Serial(d, g)
    ensures D.Inv(d) && G.Inv(g)
  {
  }

  lemma ReturnInv(s: State, w: nat)
    requires Enabled(s, Return(w)) && Inv(s)
    ensures Inv(Apply(s, Return(w)))
  {
    hide ServerOk, Serial, TasksOk, BatchOk, StagesOk;
    CompleteSerial(s.proc.disp, s.proc.guard, w);
    SameTasks(s.srv, s.proc.disp, D.Complete(s.proc.disp, w));
    ReturnStages(s, w);
  }

  lemma ReturnStages(s: State, w: nat)
    requires Busy(s.proc.disp, w) && StagesOk(s.srv, s.hist.effects, s.proc)
    ensures StagesOk(s.srv, s.hist.effects, DoReturn(s, w).proc)
  {
    var t := DoReturn(s, w);
    forall v | v in t.proc.stages ensures StageOk(t.srv, t.hist.effects, t.proc.guard, t.proc.stages, t.proc.disp, v) {
      assert v != w && StageOk(s.srv, s.hist.effects, s.proc.guard, s.proc.stages, s.proc.disp, v);
    }
  }

  /** A step inside one delivery. */
  lemma StageStep(s: State, t: State, w: nat)
    requires Inv(s) && w in s.proc.stages && w in s.proc.guard.threads
    requires ServerOk(t.srv, t.hist.effects) && Grows(s.srv, s.hist.effects, t.srv, t.hist.effects)
    requires t.maxAttempts == s.maxAttempts && t.proc.disp == s.proc.disp && t.proc.reader == s.proc.reader
    requires t.proc.claimer == s.proc.claimer
    requires t.proc.stages.Keys == s.proc.stages.Keys && t.proc.guard.threads.Keys == s.proc.guard.threads.Keys
    requires forall v :: v in s.proc.stages && v != w ==> t.proc.stages[v] == s.proc.stages[v]
    requires forall v :: v in s.proc.guard.threads && v != w ==> t.proc.guard.threads[v] == s.proc.guard.threads[v]
    requires t.proc.guard.threads[w].event == s.proc.guard.threads[w].event
    requires G.Inv(t.proc.guard) && CommitsOk(t.hist.effects, t.proc.guard)
    requires StageOk(t.srv, t.hist.effects, t.proc.guard, t.proc.stages, t.proc.disp, w)
    ensures Inv(t)
  {
    hide ServerOk, Serial, TasksOk, BatchOk, CommitsOk, G.Inv;
    PhaseSerial(s.proc.disp, s.proc.guard, t.proc.guard);
    GrowProcess(s.srv, s.hist.effects, t.srv, t.hist.effects, s.proc);
    forall v | v in t.proc.stages ensures StageOk(t.srv, t.hist.effects, t.proc.guard, t.proc.stages, t.proc.disp, v) {
      assert v != w ==> StageOk(s.srv, s.hist.effects, s.proc.guard, s.proc.stages, s.proc.disp, v);
    }
  }

  /** What the invariant says of one delivery under way. */
  lemma DeliveryFacts(s: State, w: nat)
    requires Inv(s) && w in s.proc.stages
    ensures G.Inv(s.proc.guard) && w in s.proc.guard.threads && Busy(s.proc.disp, w)
    ensures s.proc.guard.threads[w].event == TaskOf(s.proc.disp, w).env.eventId
    ensures s.proc.guard.threads[w].phase == PhaseOf(s.proc.stages[w])
    ensures TaskOk(s.srv, TaskOf(s.proc.disp, w))
    ensures s.proc.stages[w].EffectAck? ==> TaskOf(s.proc.disp, w).env.eventId in s.hist.effects
    ensures s.proc.stages[w].RowAck? ==> TaskOf(s.proc.disp, w).entry.value in s.srv.rows
    ensures ServerOk(s.srv, s.hist.effects) && CommitsOk(s.hist.effects, s.proc.guard)
  {
    hide ServerOk, BatchOk, TaskOk, CommitsOk;
    assert StageOk(s.srv, s.hist.effects, s.proc.guard, s.proc.stages, s.proc.disp, w);
    hide TasksOk, G.Inv, TasksValid;
    RunningTaskOk(s.srv, s.proc.disp, w);
  }

  lemma SeenHasEffect(g: G.Guard, effects: set<string>, event: string)
    requires G.Inv(g) && CommitsOk(effects, g)
    ensures event in g.seen ==> event in effects
  {
  }

  lemma FindDoneInv(s: State, w: nat)
    requires Enabled(s, FindDone(w)) && Inv(s)
    ensures Inv(Apply(s, FindDone(w)))
  {
    hide Inv, Serial, G.Inv, TaskOk, ServerOk;
    DeliveryFacts(s, w);
    SeenHasEffect(s.proc.guard, s.hist.effects, s.proc.guard.threads[w].event);
    G.CheckInv(s.proc.guard, w);
    StageStep(s, DoFindDone(s, w), w);
  }

  lemma CallHandlerInv(s: State, w: nat, success: bool)
    requires Enabled(s, CallHandler(w, success)) && Inv(s)
    ensures Inv(Apply(s, CallHandler(w, success)))
  {
    hide Inv, Serial, G.Inv, TaskOk, ServerOk;
    DeliveryFacts(s, w);
    if success {
      G.CommitInv(s.proc.guard, w);
      EffectOk(s.srv, s.hist.effects, TaskOf(s.proc.disp, w).env.eventId);
    }
    StageStep(s, DoCallHandler(s, w, success), w);
  }

  lemma CommittedIsCommit(g: G.Guard, w: nat)
    requires G.Inv(g) && G.InPhase(g, w, G.Committed)
    ensures g.threads[w].event in g.commits
  {
  }

  lemma MarkInv(s: State, w: nat)
    requires Enabled(s, Mark(w)) && Inv(s)
    ensures Inv(Apply(s, Mark(w)))
  {
    hide Inv, Serial, G.Inv, TaskOk, ServerOk;
    DeliveryFacts(s, w);
    CommittedIsCommit(s.proc.guard, w);
    G.MarkInv(s.proc.guard, w);
    StageStep(s, DoMark(s, w), w);
  }

  lemma DecideInv(s: State, w: nat)
    requires Enabled(s, Decide(w)) && Inv(s)
    ensures Inv(Apply(s, Decide(w)))
  {
    hide Inv, Serial, G.Inv, TaskOk, ServerOk;
    DeliveryFacts(s, w);
    G.GiveUpInv(s.proc.guard, w);
    StageStep(s, DoDecide(s, w), w);
  }

  lemma TaskRowInv(s: State, w: nat, done: bool, ok: bool)
    requires Enabled(s, TaskRow(w, done, ok)) && Inv(s)
    ensures Inv(Apply(s, TaskRow(w, done, ok)))
  {
    hide Inv, Serial, G.Inv, TaskOk, ServerOk;
    DeliveryFacts(s, w);
    AddRowOk(s.srv, s.hist.effects, JobOf(s, w).id, done);
    StageStep(s, DoTaskRow(s, w, done, ok), w);
  }

  lemma TaskAckInv(s: State, w: nat, done: bool, ok: bool)
    requires Enabled(s, TaskAck(w, done, ok)) && Inv(s)
    ensures Inv(Apply(s, TaskAck(w, done, ok)))
  {
    hide Inv, Serial, G.Inv, ServerOk;
    DeliveryFacts(s, w);
    assert Settled(s.srv, s.hist.effects, JobOf(s, w).id);
    XAckOk(s.srv, s.hist.effects, JobOf(s, w).id, done);
    StageStep(s, DoTaskAck(s, w, done), w);
  }

  lemma NoWorkersNoStages(s: State)
    requires Inv(s) && s.proc.disp.workers == map[]
    ensures s.proc.stages == map[] && s.proc.guard.threads == map[]
  {
    hide ServerOk, TasksOk, BatchOk, CommitsOk, D.Inv, G.Inv, TasksValid;
    forall w ensures w !in s.proc.guard.threads {
      assert Busy(s.proc.disp, w) <==> w in s.proc.guard.threads;
    }
  }

  /** A fresh dispatcher has accepted nothing and runs nothing. */
  lemma FreshProcess(srv: Server, effects: set<string>, p: Process, queueSize: int)
    requires p.disp == D.Init(queueSize) && p.stages == map[] && p.guard.threads == map[]
    ensures TasksOk(srv, p.disp) && StagesOk(srv, effects, p)
  {
  }

  lemma RestartInv(s: State)
    requires Enabled(s, Restart) && Inv(s)
    ensures Inv(Apply(s, Restart))
  {
    hide ServerOk, Serial, BatchOk, CommitsOk, TasksOk, StagesOk, D.Init, ValidIdentity, Linked, IsMove;
    hide D.Enabled, OnStage;
    NoWorkersNoStages(s);
    var t := Apply(s, Restart);
    FreshProcess(t.srv, t.hist.effects, t.proc, s.queueSize);
    RestartSerial(s.proc.disp, s.proc.guard, s.queueSize);
  }

  lemma CrashInv(s: State)
    requires Inv(s)
    ensures Inv(Apply(s, Crash))
  {
    hide ServerOk;
    InitSerial(s.queueSize);
  }

  lemma AddInv(s: State, frame: Frame)
    requires Enabled(s, Add(frame)) && Inv(s)
    ensures Inv(Apply(s, Add(frame)))
  {
    hide Serial, TasksOk, BatchOk, StagesOk, CommitsOk, ServerOk, ValidIdentity;
    AddOk(s.srv, s.hist.effects, frame);
    ServerStep(s, Apply(s, Add(frame)));
  }

  /** Every step keeps the invariant. */
  lemma StepInv(s: State, a: Action)
    requires Enabled(s, a) && Inv(s)
    ensures Inv(Apply(s, a))
  {
    hide Serial, TasksOk, StagesOk, CommitsOk, ServerOk, ValidIdentity, GiveAll;
    match a
    case Add(frame) => AddInv(s, frame);
    case Read(n, lost) => ReadInv(s, n, lost);
    case Claim(ids, lost) => ClaimInv(s, ids, lost);
    case BatchRow(claimed, done, ok) => BatchRowInv(s, claimed, done, ok);
    case BatchAck(claimed, done, ok) => BatchAckInv(s, claimed, done, ok);
    case BatchSend(claimed, q, w) => BatchSendInv(s, claimed, q, w);
    case DispatcherMove(m) => DispatcherMoveInv(s, m);
    case Take(w) => TakeInv(s, w);
    case Return(w) => ReturnInv(s, w);
    case FindDone(w) => FindDoneInv(s, w);
    case CallHandler(w, success) => CallHandlerInv(s, w, success);
    case Mark(w) => MarkInv(s, w);
    case Decide(w) => DecideInv(s, w);
    case TaskRow(w, done, ok) => TaskRowInv(s, w, done, ok);
    case TaskAck(w, done, ok) => TaskAckInv(s, w, done, ok);
    case Restart => RestartInv(s);
    case Crash => CrashInv(s);
    case _ => ServerStep(s, Apply(s, a));
  }

  lemma {:induction false} StepsInv(s: State, acts: seq<Action>, t: State)
    requires Inv(s) && Steps(s, acts, t)
    ensures Inv(t)
    decreases |acts|
  {
    hide Inv;
    if acts != [] {
      StepInv(s, acts[0]);
      StepsInv(Apply(s, acts[0]), acts[1..], t);
    }
  }

  /** In every run an entry of the stream is undelivered, pending, or acked; and it is
      acked only with its event's effect committed or a dead-letter row written. */
  lemma NeverAckedSilently(maxAttempts: int, count: int, queueSize: int, acts: seq<Action>, s: State, id: nat)
    requires Steps(Init(maxAttempts, count, queueSize), acts, s) && id < |s.srv.stream|
    ensures id >= s.srv.next || id in s.srv.pel || id in s.srv.acked
    ensures id in s.srv.acked ==> id < s.srv.next && id !in s.srv.pel
    ensures id in s.srv.acked ==>
      id in s.srv.rows || (s.srv.stream[id].Good? && s.srv.stream[id].env.eventId in s.hist.effects)
  {
    InitInv(maxAttempts, count, queueSize);
    StepsInv(Init(maxAttempts, count, queueSize), acts, s);
    hide Serial, TasksOk, StagesOk, BatchOk;
    assert id in s.srv.acked ==> Settled(s.srv, s.hist.effects, id);
  }

  /** While one process lives, the handler succeeds at most once per event, and whatever
      the process takes for processed has had its effect. */
  lemma AtMostOneSuccessPerLifetime(maxAttempts: int, count: int, queueSize: int, acts: seq<Action>, s: State)
    requires Steps(Init(maxAttempts, count, queueSize), acts, s)
    ensures G.NoDuplicates(s.proc.guard.commits)
    ensures forall event :: event in s.proc.guard.seen ==> event in s.proc.guard.commits && event in s.hist.effects
  {
    InitInv(maxAttempts, count, queueSize);
    StepsInv(Init(maxAttempts, count, queueSize), acts, s);
    hide ServerOk, TasksOk, StagesOk, BatchOk, D.Inv, TasksValid, Linked;
  }
}
