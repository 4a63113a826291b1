// One delivery of the consumer object is a run of the transition system: what Deliver
// does at once, a worker left alone does step by step.

module RedisDelivery {
  import opened SerialGuard
  import opened RedisModel
  import opened RedisRetries
  import opened RedisConsumers

  /** What a step inside a delivery leaves alone. */
  ghost predicate SameSetting(s: State, t: State) {
    && t.proc.disp == s.proc.disp && t.proc.cancelled == s.proc.cancelled && t.proc.closed == s.proc.closed
    && t.proc.reader == s.proc.reader && t.proc.claimer == s.proc.claimer && t.proc.scan == s.proc.scan
    && t.proc.stages.Keys == s.proc.stages.Keys && t.proc.guard.threads.Keys == s.proc.guard.threads.Keys
    && t.maxAttempts == s.maxAttempts && t.count == s.count
  }

  ghost predicate SameEffects(s: State, t: State) {
    t.proc.guard.seen == s.proc.guard.seen && t.hist.effects == s.hist.effects
  }

  function EventOf(s: State, w: nat): string
    requires Busy(s.proc.disp, w)
  {
    TaskOf(s.proc.disp, w).env.eventId
  }

  lemma LookupStep(s: State, w: nat) returns (t: State)
    requires OnStage(s, w, Lookup) && s.proc.guard.threads[w].event == EventOf(s, w)
    ensures Steps(s, [FindDone(w)], t) && SameSetting(s, t) && SameEffects(s, t) && t.srv == s.srv
    ensures t.hist.calls == s.hist.calls
    ensures OnStage(t, w, if EventOf(s, w) in s.proc.guard.seen then EffectAck else Call)
    ensures t.proc.guard.threads[w].event == EventOf(s, w)
  {
    t := DoFindDone(s, w);
    OneStep(s, FindDone(w), t);
    hide Steps;
  }

  lemma SuccessSteps(s: State, w: nat) returns (t: State)
    requires OnStage(s, w, Call) && s.proc.guard.threads[w].event == EventOf(s, w)
    ensures Steps(s, [CallHandler(w, true), Mark(w)], t) && SameSetting(s, t) && t.srv == s.srv
    ensures OnStage(t, w, EffectAck) && t.hist.calls == s.hist.calls + [JobOf(s, w)]
    ensures t.proc.guard.seen == s.proc.guard.seen + {EventOf(s, w)}
    ensures t.hist.effects == s.hist.effects + {EventOf(s, w)}
  {
    var m := DoCallHandler(s, w, true);
    t := DoMark(m, w);
    OneStep(s, CallHandler(w, true), m);
    OneStep(m, Mark(w), t);
    hide Steps, Enabled, Apply;
    StepsJoin(s, [CallHandler(w, true)], m, [Mark(w)], t);
    assert [CallHandler(w, true)] + [Mark(w)] == [CallHandler(w, true), Mark(w)];
  }

  lemma FailureSteps(s: State, w: nat) returns (t: State)
    requires OnStage(s, w, Call)
    ensures Steps(s, [CallHandler(w, false), Decide(w)], t) && SameSetting(s, t) && SameEffects(s, t) && t.srv == s.srv
    ensures t.hist.calls == s.hist.calls + [JobOf(s, w)]
    ensures OnStage(t, w, if !s.proc.cancelled && JobOf(s, w).attempt >= s.maxAttempts then WriteRow else Over)
  {
    var m := DoCallHandler(s, w, false);
    t := DoDecide(m, w);
    OneStep(s, CallHandler(w, false), m);
    OneStep(m, Decide(w), t);
    hide Steps, Enabled, Apply;
    StepsJoin(s, [CallHandler(w, false)], m, [Decide(w)], t);
    assert [CallHandler(w, false)] + [Decide(w)] == [CallHandler(w, false), Decide(w)];
  }

  lemma AckStep(s: State, w: nat, ack: Reply) returns (t: State)
    requires (OnStage(s, w, EffectAck) || OnStage(s, w, RowAck)) && Sane(ack)
    ensures Steps(s, [TaskAck(w, ack.done, ack.ok)], t) && SameSetting(s, t) && SameEffects(s, t)
    ensures OnStage(t, w, Over) && t.srv == XAck(s.srv, JobOf(s, w).id, ack.done) && t.hist.calls == s.hist.calls
  {
    t := DoTaskAck(s, w, ack.done);
    OneStep(s, TaskAck(w, ack.done, ack.ok), t);
    hide Steps;
  }

  /** The steps that dead-letter an entry: the row, and once it is known to be written, the ack. */
  function DropActions(w: nat, drop: Drop): seq<Action> {
    [TaskRow(w, drop.row.done, drop.row.ok)] + if drop.row.ok then [TaskAck(w, drop.ack.done, drop.ack.ok)] else []
  }

  lemma RowSteps(s: State, w: nat, drop: Drop) returns (t: State)
    requires OnStage(s, w, WriteRow) && Sane(drop.row) && Sane(drop.ack)
    ensures Steps(s, DropActions(w, drop), t) && SameSetting(s, t) && SameEffects(s, t) && t.hist.calls == s.hist.calls
    ensures OnStage(t, w, Over) && t.srv == Dropped(s.srv, JobOf(s, w).id, drop.row, drop.ack)
  {
    var m := DoTaskRow(s, w, drop.row.done, drop.row.ok);
    OneStep(s, TaskRow(w, drop.row.done, drop.row.ok), m);
    hide Steps, Enabled, Apply;
    if drop.row.ok {
      t := AckStep(m, w, drop.ack);
      StepsJoin(s, [TaskRow(w, drop.row.done, drop.row.ok)], m, [TaskAck(w, drop.ack.done, drop.ack.ok)], t);
    } else {
      t := m;
    }
  }

  /** From the start of a delivery the worker's own steps, with the replies the server gives,
      lead to its end and leave the processed events, the effects and the calls as Deliver
      does. */
  lemma DeliverSteps(s: State, w: nat, succeeds: bool, ack: Reply, drop: Drop) returns (acts: seq<Action>, t: State)
    requires OnStage(s, w, Lookup) && s.proc.guard.threads[w].event == EventOf(s, w)
    requires Sane(ack) && Sane(drop.row) && Sane(drop.ack)
    ensures Steps(s, acts, t) && OnStage(t, w, Over)
    ensures var called := EventOf(s, w) !in s.proc.guard.seen;
      var spent := called && !succeeds && !s.proc.cancelled && JobOf(s, w).attempt >= s.maxAttempts;
      && acts == (if !called then [FindDone(w), TaskAck(w, ack.done, ack.ok)]
                  else if succeeds then [FindDone(w), CallHandler(w, true), Mark(w), TaskAck(w, ack.done, ack.ok)]
                  else [FindDone(w), CallHandler(w, false), Decide(w)] + if spent then DropActions(w, drop) else [])
      && t.srv == Served(s.srv, JobOf(s, w), called, succeeds, s.proc.cancelled, s.maxAttempts, ack, drop)
      && t.proc.guard.seen == s.proc.guard.seen + (if called && succeeds then {EventOf(s, w)} else {})
      && t.hist.effects == s.hist.effects + (if called && succeeds then {EventOf(s, w)} else {})
      && t.hist.calls == s.hist.calls + if called then [JobOf(s, w)] else []
  {
    hide Steps, Enabled, Apply, XAck, Dropped, DropActions;
    var m := LookupStep(s, w);
    acts := [FindDone(w)];
    if EventOf(s, w) in s.proc.guard.seen {
      t := AckStep(m, w, ack);
      StepsJoin(s, acts, m, [TaskAck(w, ack.done, ack.ok)], t);
      acts := acts + [TaskAck(w, ack.done, ack.ok)];
    } else if succeeds {
      var n := SuccessSteps(m, w);
      t := AckStep(n, w, ack);
      StepsJoin(m, [CallHandler(w, true), Mark(w)], n, [TaskAck(w, ack.done, ack.ok)], t);
      StepsJoin(s, acts, m, [CallHandler(w, true), Mark(w)] + [TaskAck(w, ack.done, ack.ok)], t);
      acts := acts + ([CallHandler(w, true), Mark(w)] + [TaskAck(w, ack.done, ack.ok)]);
    } else {
      var n := FailureSteps(m, w);
      StepsJoin(s, acts, m, [CallHandler(w, false), Decide(w)], n);
      acts := acts + [CallHandler(w, false), Decide(w)];
      if !s.proc.cancelled && JobOf(s, w).attempt >= s.maxAttempts {
        t := RowSteps(n, w, drop);
        StepsJoin(s, acts, n, DropActions(w, drop), t);
        acts := acts + DropActions(w, drop);
      } else {
        t := n;
      }
    }
  }

  /** What Deliver does at once is a run of the transition system that carries the replies
      the consumer was given.  The entry leaves the pending list exactly when the ack of a
      known or successful event, or the ack after the row of an uncancelled failure with no
      budget left, took effect; a row appears exactly when one of such a failure took effect. */
  lemma DeliverIsRun(s: State, w: nat, succeeds: bool, ack: Reply, drop: Drop) returns (acts: seq<Action>, t: State)
    requires OnStage(s, w, Lookup) && s.proc.guard.threads[w].event == EventOf(s, w)
    requires Sane(ack) && Sane(drop.row) && Sane(drop.ack)
    ensures Steps(s, acts, t) && OnStage(t, w, Over)
    ensures var called := EventOf(s, w) !in s.proc.guard.seen;
      var finished := !called || succeeds;
      var spent := !finished && !s.proc.cancelled && JobOf(s, w).attempt >= s.maxAttempts;
      var id := JobOf(s, w).id;
      var left := (finished && ack.done) || (spent && drop.row.ok && drop.ack.done);
      && t.srv.pel == s.srv.pel - (if left then {id} else {})
      && t.srv.acked == s.srv.acked + (if left && id in s.srv.pel then {id} else {})
      && t.srv.rows == s.srv.rows + (if spent && drop.row.done then {id} else {})
      && t.srv.stream == s.srv.stream && t.srv.next == s.srv.next
      && t.proc.guard.seen == s.proc.guard.seen + (if called && succeeds then {EventOf(s, w)} else {})
      && t.hist.effects == s.hist.effects + (if called && succeeds then {EventOf(s, w)} else {})
      && t.hist.calls == s.hist.calls + (if called then [JobOf(s, w)] else [])
      && acts == [FindDone(w)] + (if !called then [] else if succeeds then [CallHandler(w, true), Mark(w)]
                                  else [CallHandler(w, false), Decide(w)])
                 + (if spent then [TaskRow(w, drop.row.done, drop.row.ok)] else [])
                 + if finished then [TaskAck(w, ack.done, ack.ok)]
                   else if spent && drop.row.ok then [TaskAck(w, drop.ack.done, drop.ack.ok)] else []
  {
    hide Steps, Enabled, Apply;
    acts, t := DeliverSteps(s, w, succeeds, ack, drop);
  }
}
