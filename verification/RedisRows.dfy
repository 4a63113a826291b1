// Entries whose dead-letter row is refused by its own validation: they stay pending for
// ever, and past the budget they break off every reclaim pass.

module RedisRows {
  import opened Identity
  import D = Dispatcher
  import G = Dedupe
  import R = DeadLetters
  import opened SerialGuard
  import opened RedisModel
  import opened RedisSafety
  import opened RedisRetries

  /** Only rows that pass their validation are ever written. */
  ghost predicate RowsOk(srv: Server) {
    forall id :: id in srv.rows ==> HasWritableRow(srv.stream, id)
  }

  lemma SameRows(srv: Server, srv': Server)
    requires RowsOk(srv) && srv.stream <= srv'.stream && srv'.rows == srv.rows
    ensures RowsOk(srv')
  {
  }

  lemma TaskRowWritable(s: State, w: nat)
    requires Inv(s) && OnStage(s, w, WriteRow)
    ensures HasWritableRow(s.srv.stream, JobOf(s, w).id)
  {
    hide Inv, Serial, G.Inv, ServerOk;
    DeliveryFacts(s, w);
  }

  lemma RowWritten(srv: Server, id: nat, done: bool)
    requires RowsOk(srv) && (done ==> HasWritableRow(srv.stream, id))
    ensures RowsOk(AddRow(srv, id, done))
  {
  }

  predicate WritesRow(a: Action) {
    a.TaskRow? || a.BatchRow?
  }

  lemma OtherStepRows(s: State, a: Action)
    requires Enabled(s, a) && !WritesRow(a)
    ensures Apply(s, a).srv.rows == s.srv.rows && s.srv.stream <= Apply(s, a).srv.stream
  {
    hide D.Enabled, D.Apply, D.TrySend, GiveAll, ForDlq, ClaimsBlindly, ValidIdentity, OnStage, XPending;
  }

  lemma StepRows(s: State, a: Action)
    requires Enabled(s, a) && Inv(s) && RowsOk(s.srv)
    ensures RowsOk(Apply(s, a).srv)
  {
    hide Inv, RowsOk, HasWritableRow, ForDlq;
    if a.TaskRow? {
      TaskRowWritable(s, a.w);
      RowWritten(s.srv, JobOf(s, a.w).id, a.done);
    } else if a.BatchRow? {
      RowWritten(s.srv, BatchOf(s.proc, a.claimed).jobs[0].id, a.done);
    } else {
      OtherStepRows(s, a);
      hide Enabled, Apply;
      SameRows(s.srv, Apply(s, a).srv);
    }
  }

  lemma {:induction false} StepsRows(s: State, acts: seq<Action>, t: State)
    requires Inv(s) && RowsOk(s.srv) && Steps(s, acts, t)
    ensures Inv(t) && RowsOk(t.srv)
    decreases |acts|
  {
    hide Inv, RowsOk;
    if acts != [] {
      StepInv(s, acts[0]);
      StepRows(s, acts[0]);
      StepsRows(Apply(s, acts[0]), acts[1..], t);
    }
  }

  lemma RunRows(maxAttempts: int, count: int, queueSize: int, acts: seq<Action>, s: State)
    requires Steps(Init(maxAttempts, count, queueSize), acts, s)
    ensures Inv(s) && RowsOk(s.srv)
  {
    hide Inv, Steps;
    InitInv(maxAttempts, count, queueSize);
    StepsRows(Init(maxAttempts, count, queueSize), acts, s);
  }

  /** In every run an entry without a writable row that has been delivered is pending: it is
      never acked and never gets a row. */
  lemma UnwritableStaysPending(maxAttempts: int, count: int, queueSize: int, acts: seq<Action>, s: State, id: nat)
    requires Steps(Init(maxAttempts, count, queueSize), acts, s)
    requires id < |s.srv.stream| && !HasWritableRow(s.srv.stream, id)
    ensures id !in s.srv.rows && id !in s.srv.acked
    ensures id < s.srv.next ==> id in s.srv.pel
  {
    RunRows(maxAttempts, count, queueSize, acts, s);
    hide Inv, Steps, HasWritableRow;
    NeverAckedSilently(maxAttempts, count, queueSize, acts, s, id);
  }

  lemma RowRefusedExactly(stream: seq<Frame>, id: nat)
    requires id < |stream|
    ensures HasWritableRow(stream, id) <==> stream[id].Good? || R.TimeFits(stream[id].raw, stream[id].timeParses)
  {
    hide R.IsWritable, R.TimeFits;
    if stream[id].Undecodable? {
      R.WritableExactly(stream[id].raw, stream[id].timeParses);
    }
  }

  /** So in every run an entry that does not decode, and whose timestamp parses without being
      in UTC form, is never acked and never gets a row: once delivered it stays pending. */
  lemma OffsetEntryStaysPending(maxAttempts: int, count: int, queueSize: int, acts: seq<Action>, s: State, id: nat)
    requires Steps(Init(maxAttempts, count, queueSize), acts, s)
    requires id < |s.srv.stream| && s.srv.stream[id].Undecodable? && s.srv.stream[id].raw.Some?
    requires var time := s.srv.stream[id].raw.value.occurredAt;
      time != "" && s.srv.stream[id].timeParses && !R.IsUtc(time)
    ensures id !in s.srv.rows && id !in s.srv.acked
    ensures id < s.srv.next ==> id in s.srv.pel
  {
    RowRefusedExactly(s.srv.stream, id);
    hide Steps, HasWritableRow, R.IsUtc;
    UnwritableStaysPending(maxAttempts, count, queueSize, acts, s, id);
  }

  /** Adding an undecodable entry, reading it, writing its row and acking it. */
  function AckingRun(frame: Frame): seq<Action> {
    ([Add(frame)] + [Read(1, false)]) + ([BatchRow(false, true, true)] + [BatchAck(false, true, true)])
  }

  /** The entry has been read and is about to be dead-lettered. */
  predicate ReadAlone(s: State, frame: Frame) {
    s.srv.stream == [frame] && s.proc.reader == Front([Job(0, 1)], false) && 0 in s.srv.pel
  }

  lemma ReadSteps(maxAttempts: int, count: int, queueSize: int, frame: Frame) returns (t: State)
    requires frame.Undecodable?
    ensures Steps(Init(maxAttempts, count, queueSize), [Add(frame)] + [Read(1, false)], t) && ReadAlone(t, frame)
  {
    var s := Init(maxAttempts, count, queueSize);
    var m := Apply(s, Add(frame));
    t := DoRead(m, 1, false);
    assert m.srv.stream == [frame] && t.proc.reader.jobs == [Job(0, 1)];
    hide GiveAll, HasWritableRow;
    OneStep(s, Add(frame), m);
    OneStep(m, Read(1, false), t);
    hide Steps, Apply, Enabled, DoRead;
    StepsJoin(s, [Add(frame)], m, [Read(1, false)], t);
  }

  lemma DropSteps(s: State, frame: Frame) returns (t: State)
    requires ReadAlone(s, frame) && frame.Undecodable? && HasWritableRow([frame], 0)
    ensures Steps(s, [BatchRow(false, true, true)] + [BatchAck(false, true, true)], t)
    ensures t.srv.stream == [frame] && 0 in t.srv.acked
  {
    var m := DoBatchRow(s, false, true, true);
    t := DoBatchAck(m, false, true, true);
    hide HasWritableRow;
    OneStep(s, BatchRow(false, true, true), m);
    OneStep(m, BatchAck(false, true, true), t);
    hide Steps, Apply, Enabled;
    StepsJoin(s, [BatchRow(false, true, true)], m, [BatchAck(false, true, true)], t);
  }

  lemma AckingRunAcks(maxAttempts: int, count: int, queueSize: int, frame: Frame) returns (t: State)
    requires frame.Undecodable? && HasWritableRow([frame], 0)
    ensures Steps(Init(maxAttempts, count, queueSize), AckingRun(frame), t)
    ensures t.srv.stream == [frame] && 0 in t.srv.acked
  {
    hide Steps, HasWritableRow, Init, ReadAlone;
    var m := ReadSteps(maxAttempts, count, queueSize, frame);
    t := DropSteps(m, frame);
    StepsJoin(Init(maxAttempts, count, queueSize), [Add(frame)] + [Read(1, false)], m,
              [BatchRow(false, true, true)] + [BatchAck(false, true, true)], t);
  }

  ghost predicate Acks(maxAttempts: int, count: int, queueSize: int, acts: seq<Action>, s: State, frame: Frame, id: nat)
  {
    && Steps(Init(maxAttempts, count, queueSize), acts, s)
    && id < |s.srv.stream| && s.srv.stream[id] == frame && id in s.srv.acked
  }

  /** What does not decode can be acked in some run exactly when its timestamp fits. */
  lemma AckedInSomeRunExactly(maxAttempts: int, count: int, queueSize: int, frame: Frame)
    requires frame.Undecodable?
    ensures (exists acts, s, id :: Acks(maxAttempts, count, queueSize, acts, s, frame, id))
       <==> R.TimeFits(frame.raw, frame.timeParses)
  {
    hide Steps, HasWritableRow, R.TimeFits;
    RowRefusedExactly([frame], 0);
    if R.TimeFits(frame.raw, frame.timeParses) {
      var s := AckingRunAcks(maxAttempts, count, queueSize, frame);
      assert Acks(maxAttempts, count, queueSize, AckingRun(frame), s, frame, 0);
    } else if acts, s, id: nat :| Acks(maxAttempts, count, queueSize, acts, s, frame, id) {
      RowRefusedExactly(s.srv.stream, id);
      UnwritableStaysPending(maxAttempts, count, queueSize, acts, s, id);
    }
  }

  predicate OnBatch(a: Action, claimed: bool) {
    || (a.BatchRow? && a.claimed == claimed) || (a.BatchAck? && a.claimed == claimed)
    || (a.BatchSend? && a.claimed == claimed) || (a.BatchSkip? && a.claimed == claimed)
  }

  /** In every run, once such an entry past the budget heads a claimed batch, the only thing
      that can happen to the batch is that it is broken off: none of the entries after it
      is sent, acked or dead-lettered by this pass. */
  lemma UnwritableBreaksBatch(maxAttempts: int, count: int, queueSize: int, acts: seq<Action>, s: State, claimed: bool,
                              a: Action)
    requires Steps(Init(maxAttempts, count, queueSize), acts, s)
    requires BatchOf(s.proc, claimed).jobs != []
    requires var job := BatchOf(s.proc, claimed).jobs[0]; OverBudget(s, job) && !HasWritableRow(s.srv.stream, job.id)
    requires Enabled(s, a) && OnBatch(a, claimed)
    ensures var t := Apply(s, a);
      && a.BatchRow? && !a.done && BatchOf(t.proc, claimed) == NO_BATCH
      && t.srv == s.srv && t.hist == s.hist && t.proc.disp == s.proc.disp
  {
    hide *;
    RunRows(maxAttempts, count, queueSize, acts, s);
    UnwrittenBatch(s, claimed);
    BreaksOff(s, claimed, a);
  }

  lemma UnwrittenBatch(s: State, claimed: bool)
    requires Inv(s) && RowsOk(s.srv) && BatchOf(s.proc, claimed).jobs != []
    requires !HasWritableRow(s.srv.stream, BatchOf(s.proc, claimed).jobs[0].id)
    ensures !BatchOf(s.proc, claimed).written
  {
    hide HasWritableRow, Serial, G.Inv, ServerOk;
    assert BatchOk(s.srv, BatchOf(s.proc, claimed));
  }

  lemma BreaksOff(s: State, claimed: bool, a: Action)
    requires Enabled(s, a) && OnBatch(a, claimed)
    requires BatchOf(s.proc, claimed).jobs != [] && !BatchOf(s.proc, claimed).written
    requires var job := BatchOf(s.proc, claimed).jobs[0]; OverBudget(s, job) && !HasWritableRow(s.srv.stream, job.id)
    ensures var t := Apply(s, a);
      && a.BatchRow? && !a.done && BatchOf(t.proc, claimed) == NO_BATCH
      && t.srv == s.srv && t.hist == s.hist && t.proc.disp == s.proc.disp
  {
    hide D.TrySend, D.Enabled, D.Apply, D.Take, HasWritableRow, ValidIdentity, XPending, GiveAll, ClaimsBlindly;
    hide OnStage;
  }
}
