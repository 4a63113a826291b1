// The Redis consumer as a transition system: the server's stream, group position and
// pending list; the read loop, the reclaim pass and the per-run workers of one
// process; failed commands, lost replies, cancellation, Close, restart and crash.
//
// Entry ids are positions in the stream.  A command that writes has two independent
// outcomes: whether it took effect (done) and whether the client saw success (ok).

module RedisModel {
  import opened AttemptBounds
  import opened Identity
  import opened Sums
  import D = Dispatcher
  import G = Dedupe
  import R = DeadLetters
  import opened SerialGuard

  /** What the data field of an entry holds: an envelope that decodes and validates, or
      something that does not, of which JSON may still give identity fields; timeParses
      says whether RFC 3339 parsing takes its timestamp. */
  datatype Frame = Undecodable(raw: Option<R.RawFrame>, timeParses: bool) | Good(env: Envelope)

  /** The dead-letter row built for an entry passes its validation.  The timestamp of a
      frame that decodes is in UTC form, which its row needs. */
  ghost predicate HasWritableRow(stream: seq<Frame>, id: nat) {
    id < |stream| && (stream[id].Undecodable? ==> R.IsWritable(stream[id].raw, stream[id].timeParses))
  }

  /** pel maps a pending entry to its delivery count; rows are the entries that have a
      dead-letter row. */
  datatype Server = Server(
    stream: seq<Frame>,
    next: nat,
    pel: map<nat, nat>,
    acked: set<nat>,
    rows: set<nat>)

  /** An entry handed to the process, with the attempt it was given. */
  datatype Job = Job(id: nat, attempt: nat)

  /** A batch being worked through by the read loop or the reclaim pass.  written: the
      head's dead-letter row is written, its XACK is next. */
  datatype Front = Front(jobs: seq<Job>, written: bool)

  datatype Stage = Lookup | Call | Record | EffectAck | Judge | WriteRow | RowAck | Over

  function PhaseOf(stage: Stage): G.Phase {
    match stage
    case Lookup => G.Checking
    case Call => G.Cleared
    case Judge => G.Cleared
    case Record => G.Committed
    case _ => G.Settled
  }

  datatype Process = Process(
    disp: D.State,
    guard: G.Guard,
    stages: map<nat, Stage>,
    reader: Front,
    claimer: Front,
    scan: Option<map<nat, nat>>,
    cancelled: bool,
    closed: bool)

  /** Where the copy of an entry made by one delivery last was: in the batch of the read
      loop or the reclaim pass, or accepted by a dispatcher as the index-th task of the
      entry's run.  epoch counts dispatchers. */
  datatype Place = InBatch(claimed: bool) | InRun(epoch: nat, index: nat)

  /** blind: some claim handed out an entry that the scan in hand had missed and that had
      been delivered more than once. */
  datatype History = History(
    effects: set<string>,
    given: map<nat, seq<nat>>,
    calls: seq<Job>,
    place: map<Job, Place>,
    epoch: nat,
    blind: bool)

  datatype State = State(
    maxAttempts: nat,
    count: nat,
    queueSize: int,
    srv: Server,
    proc: Process,
    hist: History)

  const NO_BATCH := Front([], false)

  function Boot(queueSize: int): Process {
    Process(D.Init(queueSize), G.FRESH, map[], NO_BATCH, NO_BATCH, None, false, false)
  }

  const DEFAULT_COUNT: nat := 100

  function Init(maxAttempts: int, count: int, queueSize: int): State {
    State(NormalizedAttempts(maxAttempts),
          if count <= 0 then DEFAULT_COUNT else count,
          queueSize,
          Server([], 0, map[], {}, {}),
          Boot(queueSize),
          History({}, map[], [], map[], 0, false))
  }

  // ---------------------------------------------------------- server commands

  function XAck(srv: Server, id: nat, done: bool): Server {
    if done && id in srv.pel then srv.(pel := srv.pel - {id}, acked := srv.acked + {id}) else srv
  }

  function AddRow(srv: Server, id: nat, done: bool): Server {
    if done then srv.(rows := srv.rows + {id}) else srv
  }

  /** XREADGROUP hands out the next n entries, each with delivery count 1. */
  function XRead(srv: Server, n: nat): Server {
    srv.(next := srv.next + n, pel := srv.pel + Delivered(srv.next, n))
  }

  /** n entries from a position on, each with delivery count 1. */
  function Delivered(from: nat, n: nat): (m: map<nat, nat>)
    ensures forall id :: id in m <==> from <= id < from + n
    ensures forall id :: id in m ==> m[id] == 1
  {
    if n == 0 then map[] else Delivered(from, n - 1)[from + n - 1 := 1]
  }

  function Below(pel: map<nat, nat>, id: nat): set<nat> {
    set j | j in pel && j < id
  }

  /** XPENDING - + count: the pending entries with the smallest ids, at most count. */
  function XPending(pel: map<nat, nat>, count: nat): map<nat, nat> {
    map id | id in pel && |Below(pel, id)| < count :: pel[id]
  }

  /** XAUTOCLAIM raises the delivery count of what it claims. */
  function XAutoClaim(srv: Server, ids: seq<nat>): Server {
    srv.(pel := map id | id in srv.pel :: if id in ids then srv.pel[id] + 1 else srv.pel[id])
  }

  predicate Increasing(ids: seq<nat>) {
    forall i, j :: 0 <= i < j < |ids| ==> ids[i] < ids[j]
  }

  /** The attempt ClaimOnce derives for a reclaimed entry from its earlier scan. */
  function ClaimAttempt(scan: map<nat, nat>, id: nat): nat {
    var attempt := (if id in scan then scan[id] else 0) + 1;
    if attempt < 2 then 2 else attempt
  }

  // ------------------------------------------------------------------ actions

  datatype Action =
    | Add(frame: Frame)
    | Read(n: nat, lost: bool)
    | Scan
    | Claim(ids: seq<nat>, lost: bool)
    | GiveUpScan
    | BatchRow(claimed: bool, done: bool, ok: bool)
    | BatchAck(claimed: bool, done: bool, ok: bool)
    | BatchSend(claimed: bool, q: nat, w: nat)
    | BatchSkip(claimed: bool)
    | DispatcherMove(a: D.Action)
    | Take(w: nat)
    | Return(w: nat)
    | FindDone(w: nat)
    | CallHandler(w: nat, success: bool)
    | Mark(w: nat)
    | Decide(w: nat)
    | TaskRow(w: nat, done: bool, ok: bool)
    | TaskAck(w: nat, done: bool, ok: bool)
    | Cancel
    | Close
    | Restart
    | Crash

  function BatchOf(p: Process, claimed: bool): Front {
    if claimed then p.claimer else p.reader
  }

  function SetBatch(p: Process, claimed: bool, f: Front): Process {
    if claimed then p.(claimer := f) else p.(reader := f)
  }

  predicate OverBudget(s: State, job: Job) {
    job.attempt > s.maxAttempts
  }

  /** The head of a batch goes to the dead-letter stream instead of a worker: a claim past
      the budget, or a frame that cannot be decoded. */
  predicate ForDlq(s: State, job: Job) {
    OverBudget(s, job) || job.id >= |s.srv.stream| || s.srv.stream[job.id].Undecodable?
  }

  /** The message built for a decodable entry. */
  function Message(frame: Frame, job: Job): D.Task
    requires frame.Good?
  {
    D.Task(frame.env.(attempt := job.attempt), Some(job.id), job.attempt)
  }

  predicate OnStage(s: State, w: nat, stage: Stage) {
    && w in s.proc.stages && s.proc.stages[w] == stage
    && w in s.proc.guard.threads && s.proc.guard.threads[w].phase == PhaseOf(stage)
    && Busy(s.proc.disp, w) && TaskOf(s.proc.disp, w).entry.Some?
  }

  ghost predicate Enabled(s: State, a: Action) {
    var p := s.proc;
    match a
    case Add(frame) => frame.Good? ==> ValidIdentity(frame.env)
    case Read(n, lost) => p.reader == NO_BATCH && 1 <= n <= s.count && s.srv.next + n <= |s.srv.stream|
    case Scan => p.claimer == NO_BATCH && p.scan.None?
    case Claim(ids, lost) =>
      p.scan.Some? && Increasing(ids) && |ids| <= s.count && forall i :: 0 <= i < |ids| ==> ids[i] in s.srv.pel
    case GiveUpScan => p.scan.Some?
    case BatchRow(claimed, done, ok) =>
      var f := BatchOf(p, claimed);
      && f.jobs != [] && !f.written && ForDlq(s, f.jobs[0])
      && (ok ==> done) && (done ==> HasWritableRow(s.srv.stream, f.jobs[0].id))
    case BatchAck(claimed, done, ok) =>
      var f := BatchOf(p, claimed);
      f.jobs != [] && f.written && (ok ==> done)
    case BatchSend(claimed, q, w) =>
      var f := BatchOf(p, claimed);
      f.jobs != [] && !f.written && !ForDlq(s, f.jobs[0]) &&
        D.Enabled(p.disp, D.DoDispatch(Message(s.srv.stream[f.jobs[0].id], f.jobs[0]), q, w))
    case BatchSkip(claimed) =>
      var f := BatchOf(p, claimed);
      f.jobs != [] && !f.written && !ForDlq(s, f.jobs[0]) && (p.cancelled || p.disp.done)
    case DispatcherMove(a) =>
      IsMove(a) && (a.DoStop? || a.DoCloseDone? ==> p.cancelled || p.closed) && D.Enabled(p.disp, a)
    case Take(w) => D.Enabled(p.disp, D.DoTake(w))
    case Return(w) => OnStage(s, w, Over)
    case FindDone(w) => OnStage(s, w, Lookup)
    case CallHandler(w, success) => OnStage(s, w, Call)
    case Mark(w) => OnStage(s, w, Record)
    case Decide(w) => OnStage(s, w, Judge)
    case TaskRow(w, done, ok) => OnStage(s, w, WriteRow) && (ok ==> done)
    case TaskAck(w, done, ok) => (OnStage(s, w, EffectAck) || OnStage(s, w, RowAck)) && (ok ==> done)
    case Cancel => true
    case Close => true
    case Restart =>
      && !p.closed && p.disp.workers == map[] && p.disp.stopped
      && p.reader == NO_BATCH && p.claimer == NO_BATCH && p.scan.None?
    case Crash => true
  }

  // ------------------------------------------------------------- what they do

  function GiveAll(h: History, jobs: seq<Job>, claimed: bool): History
    decreases |jobs|
  {
    if jobs == [] then h
    else GiveAll(h.(given := h.given[jobs[0].id := GivenTo(h, jobs[0].id) + [jobs[0].attempt]],
                    place := h.place[jobs[0] := InBatch(claimed)]), jobs[1..], claimed)
  }

  /** The attempts an entry has been given, in order. */
  function GivenTo(h: History, id: nat): seq<nat> {
    if id in h.given then h.given[id] else []
  }

  function DoRead(s: State, n: nat, lost: bool): State {
    var jobs := if lost then [] else seq(n, (i: nat) => Job(s.srv.next + i, 1));
    s.(srv := XRead(s.srv, n), proc := s.proc.(reader := Front(jobs, false)), hist := GiveAll(s.hist, jobs, false))
  }

  function DoScan(s: State): State {
    s.(proc := s.proc.(scan := Some(XPending(s.srv.pel, s.count))))
  }

  /** Entry id is missing from the scan though it was delivered more than once. */
  predicate Missed(srv: Server, scan: map<nat, nat>, id: nat) {
    id in srv.pel && id !in scan && srv.pel[id] > 1
  }

  predicate ClaimsBlindly(srv: Server, scan: map<nat, nat>, ids: seq<nat>) {
    exists i :: 0 <= i < |ids| && Missed(srv, scan, ids[i])
  }

  function ClaimJobs(scan: map<nat, nat>, ids: seq<nat>, lost: bool): seq<Job> {
    if lost then [] else seq(|ids|, (i: nat) requires i < |ids| => Job(ids[i], ClaimAttempt(scan, ids[i])))
  }

  function ClaimHistory(s: State, ids: seq<nat>, lost: bool): History
    requires s.proc.scan.Some?
  {
    s.hist.(blind := s.hist.blind || (!lost && ClaimsBlindly(s.srv, s.proc.scan.value, ids)))
  }

  function DoClaim(s: State, ids: seq<nat>, lost: bool): State
    requires s.proc.scan.Some?
  {
    var jobs := ClaimJobs(s.proc.scan.value, ids, lost);
    s.(srv := XAutoClaim(s.srv, ids), proc := s.proc.(claimer := Front(jobs, false), scan := None),
       hist := GiveAll(ClaimHistory(s, ids, lost), jobs, true))
  }

  /** What is left of a batch after its head.  The reclaim pass returns on an error while
      dead-lettering a claim past the budget; every other error is local to its entry. */
  function Rest(s: State, f: Front, ok: bool): Front
    requires f.jobs != []
  {
    if !ok && OverBudget(s, f.jobs[0]) then NO_BATCH else Front(f.jobs[1..], false)
  }

  function DoBatchRow(s: State, claimed: bool, done: bool, ok: bool): State
    requires BatchOf(s.proc, claimed).jobs != []
  {
    var f := BatchOf(s.proc, claimed);
    s.(srv := AddRow(s.srv, f.jobs[0].id, done),
       proc := SetBatch(s.proc, claimed, if ok then f.(written := true) else Rest(s, f, false)))
  }

  function DoBatchAck(s: State, claimed: bool, done: bool, ok: bool): State
    requires BatchOf(s.proc, claimed).jobs != []
  {
    var f := BatchOf(s.proc, claimed);
    s.(srv := XAck(s.srv, f.jobs[0].id, done), proc := SetBatch(s.proc, claimed, Rest(s, f, ok)))
  }

  function DoBatchSend(s: State, claimed: bool, q: nat, w: nat): State
    requires BatchOf(s.proc, claimed).jobs != [] && !ForDlq(s, BatchOf(s.proc, claimed).jobs[0])
  {
    var f := BatchOf(s.proc, claimed);
    var task := Message(s.srv.stream[f.jobs[0].id], f.jobs[0]);
    var (d, outcome) := D.TrySend(s.proc.disp, task, q, w);
    s.(proc := SetBatch(s.proc.(disp := d), claimed, if outcome.Full? then f else Front(f.jobs[1..], false)),
       hist := if outcome.Sent?
               then
                 var place := InRun(s.hist.epoch, |At(s.proc.disp.accepted, task.env.runId)|);
                 s.hist.(place := s.hist.place[f.jobs[0] := place])
               else s.hist)
  }

  function SetStage(p: Process, w: nat, stage: Stage): Process {
    p.(stages := p.stages[w := stage])
  }

  function DoTake(s: State, w: nat): State
    requires D.Enabled(s.proc.disp, D.DoTake(w))
  {
    var d := D.Take(s.proc.disp, w);
    s.(proc := SetStage(s.proc.(disp := d, guard := G.Begin(s.proc.guard, w, TaskOf(d, w).env.eventId)), w, Lookup))
  }

  function DoReturn(s: State, w: nat): State
    requires Busy(s.proc.disp, w)
  {
    s.(proc := s.proc.(disp := D.Complete(s.proc.disp, w), guard := G.End(s.proc.guard, w),
      stages := s.proc.stages - {w}))
  }

  /** alreadyProcessed: a known event goes straight to its ack. */
  function DoFindDone(s: State, w: nat): State
    requires OnStage(s, w, Lookup)
  {
    var g := G.Check(s.proc.guard, w);
    s.(proc := SetStage(s.proc.(guard := g), w, if g.threads[w].phase == G.Settled then EffectAck else Call))
  }

  function JobOf(s: State, w: nat): Job
    requires Busy(s.proc.disp, w) && TaskOf(s.proc.disp, w).entry.Some?
  {
    Job(TaskOf(s.proc.disp, w).entry.value, TaskOf(s.proc.disp, w).attempt)
  }

  function DoCallHandler(s: State, w: nat, success: bool): State
    requires OnStage(s, w, Call)
  {
    var called := s.(hist := s.hist.(calls := s.hist.calls + [JobOf(s, w)]));
    if success then
      called.(proc := SetStage(s.proc.(guard := G.Commit(s.proc.guard, w)), w, Record),
              hist := called.hist.(effects := s.hist.effects + {TaskOf(s.proc.disp, w).env.eventId}))
    else
      called.(proc := SetStage(s.proc, w, Judge))
  }

  /** markProcessed. */
  function DoMark(s: State, w: nat): State
    requires OnStage(s, w, Record)
  {
    s.(proc := SetStage(s.proc.(guard := G.Mark(s.proc.guard, w)), w, EffectAck))
  }

  /** After a failure: leave the entry pending, or dead-letter it once the budget is spent. */
  function DoDecide(s: State, w: nat): State
    requires OnStage(s, w, Judge)
  {
    var stage := if !s.proc.cancelled && TaskOf(s.proc.disp, w).attempt >= s.maxAttempts then WriteRow else Over;
    s.(proc := SetStage(s.proc.(guard := G.GiveUp(s.proc.guard, w)), w, stage))
  }

  function DoTaskRow(s: State, w: nat, done: bool, ok: bool): State
    requires OnStage(s, w, WriteRow)
  {
    s.(srv := AddRow(s.srv, JobOf(s, w).id, done), proc := SetStage(s.proc, w, if ok then RowAck else Over))
  }

  function DoTaskAck(s: State, w: nat, done: bool): State
    requires Busy(s.proc.disp, w) && TaskOf(s.proc.disp, w).entry.Some?
  {
    s.(srv := XAck(s.srv, JobOf(s, w).id, done), proc := SetStage(s.proc, w, Over))
  }

  function Apply(s: State, a: Action): State
    requires Enabled(s, a)
  {
    match a
    case Add(frame) => s.(srv := s.srv.(stream := s.srv.stream + [frame]))
    case Read(n, lost) => DoRead(s, n, lost)
    case Scan => DoScan(s)
    case Claim(ids, lost) => DoClaim(s, ids, lost)
    case GiveUpScan => s.(proc := s.proc.(scan := None))
    case BatchRow(claimed, done, ok) => DoBatchRow(s, claimed, done, ok)
    case BatchAck(claimed, done, ok) => DoBatchAck(s, claimed, done, ok)
    case BatchSend(claimed, q, w) => DoBatchSend(s, claimed, q, w)
    case BatchSkip(claimed) => s.(proc := SetBatch(s.proc, claimed, Front(BatchOf(s.proc, claimed).jobs[1..], false)))
    case DispatcherMove(m) => s.(proc := s.proc.(disp := D.Apply(s.proc.disp, m)))
    case Take(w) => DoTake(s, w)
    case Return(w) => DoReturn(s, w)
    case FindDone(w) => DoFindDone(s, w)
    case CallHandler(w, success) => DoCallHandler(s, w, success)
    case Mark(w) => DoMark(s, w)
    case Decide(w) => DoDecide(s, w)
    case TaskRow(w, done, ok) => DoTaskRow(s, w, done, ok)
    case TaskAck(w, done, ok) => DoTaskAck(s, w, done)
    case Cancel => s.(proc := s.proc.(cancelled := true))
    case Close => s.(proc := s.proc.(closed := true))
    case Restart => s.(proc := s.proc.(disp := D.Init(s.queueSize), cancelled := false),
      hist := s.hist.(epoch := s.hist.epoch + 1))
    case Crash => s.(proc := Boot(s.queueSize), hist := s.hist.(epoch := s.hist.epoch + 1))
  }

  /** acts is a possible run from s, ending in t. */
  ghost predicate Steps(s: State, acts: seq<Action>, t: State)
    decreases |acts|
  {
    if acts == [] then s == t
    else Enabled(s, acts[0]) && Steps(Apply(s, acts[0]), acts[1..], t)
  }

  /** What one step does to the server, entry by entry: an entry becomes pending by being
      read, with one delivery; each claim adds a delivery; only an ack that took effect ends
      it and only a row that took effect adds one. */
  lemma ServerStepExactly(s: State, a: Action, id: nat)
    requires Enabled(s, a)
    ensures var t := Apply(s, a).srv;
      var acks := (a.BatchAck? && a.done && BatchOf(s.proc, a.claimed).jobs[0].id == id)
        || (a.TaskAck? && a.done && JobOf(s, a.w).id == id);
      var writes := (a.BatchRow? && a.done && BatchOf(s.proc, a.claimed).jobs[0].id == id)
        || (a.TaskRow? && a.done && JobOf(s, a.w).id == id);
      var handed := a.Read? && s.srv.next <= id < s.srv.next + a.n;
      && (id in t.pel <==> handed || (id in s.srv.pel && !acks))
      && (handed ==> t.pel[id] == 1)
      && (id in t.pel && !handed ==> t.pel[id] == s.srv.pel[id] + if a.Claim? && id in a.ids then 1 else 0)
      && (id in t.acked <==> id in s.srv.acked || (acks && id in s.srv.pel))
      && (id in t.rows <==> id in s.srv.rows || writes)
      && t.stream == s.srv.stream + (if a.Add? then [a.frame] else [])
      && t.next == s.srv.next + if a.Read? then a.n else 0
  {
    hide D.Enabled, D.Apply, D.TrySend, D.Take, D.Complete, ValidIdentity, OnStage, ForDlq, GiveAll, XPending,
         ClaimsBlindly;
  }

  /** What a read and a claim put into a batch, unless the reply is lost: a read entry is on
      its first attempt, a claimed one on the one after the deliveries its scan saw, and at
      least on the second. */
  lemma HandedOutExactly(s: State, a: Action)
    requires Enabled(s, a) && (a.Read? || a.Claim?)
    ensures var jobs := (if a.Read? then Apply(s, a).proc.reader else Apply(s, a).proc.claimer).jobs;
      && |jobs| == (if a.lost then 0 else if a.Read? then a.n else |a.ids|)
      && forall i :: 0 <= i < |jobs| ==>
        if a.Read? then jobs[i] == Job(s.srv.next + i, 1)
        else
          && jobs[i].id == a.ids[i]
          && jobs[i].attempt ==
               if a.ids[i] in s.proc.scan.value && s.proc.scan.value[a.ids[i]] > 1 then s.proc.scan.value[a.ids[i]] + 1
               else 2
  {
    hide D.Enabled, D.Apply, D.TrySend, D.Take, D.Complete, ValidIdentity, OnStage, ForDlq, GiveAll, XPending,
         ClaimsBlindly;
  }

  /** What working on the head of a batch leaves of it: a row that is known to be written is
      acked next; a failure past the budget drops the batch; a refused send is tried again;
      anything else goes on to the next entry. */
  lemma BatchStepExactly(s: State, a: Action)
    requires Enabled(s, a) && (a.BatchRow? || a.BatchAck? || a.BatchSend? || a.BatchSkip?)
    ensures var f, f' := BatchOf(s.proc, a.claimed), BatchOf(Apply(s, a).proc, a.claimed);
      var fails := (a.BatchRow? || a.BatchAck?) && !a.ok;
      var refused := a.BatchSend? &&
        D.TrySend(s.proc.disp, Message(s.srv.stream[f.jobs[0].id], f.jobs[0]), a.q, a.w).1.Full?;
      && f'.written == (a.BatchRow? && a.ok)
      && f'.jobs == (if (a.BatchRow? && a.ok) || refused then f.jobs
                     else if fails && f.jobs[0].attempt > s.maxAttempts then []
                     else f.jobs[1..])
      && BatchOf(Apply(s, a).proc, !a.claimed) == BatchOf(s.proc, !a.claimed)
  {
    hide D.Enabled, D.Apply, D.TrySend, D.Take, D.Complete, ValidIdentity, OnStage, GiveAll, XPending, ClaimsBlindly;
  }

  lemma StepSettings(s: State, a: Action)
    requires Enabled(s, a)
    ensures var t := Apply(s, a); t.maxAttempts == s.maxAttempts && t.count == s.count && t.queueSize == s.queueSize
  {
    hide D.Enabled, D.Apply, D.TrySend, D.Take, D.Complete, ValidIdentity, OnStage, ForDlq, GiveAll, XPending,
         ClaimsBlindly;
  }

  /** A consumer keeps its configuration in every run, restarts and crashes included. */
  lemma {:induction false} StepsSettings(s: State, acts: seq<Action>, t: State)
    requires Steps(s, acts, t)
    ensures t.maxAttempts == s.maxAttempts && t.count == s.count && t.queueSize == s.queueSize
    decreases |acts|
  {
    hide Enabled, Apply;
    if acts != [] {
      StepSettings(s, acts[0]);
      StepsSettings(Apply(s, acts[0]), acts[1..], t);
    }
  }

  /** The budget in force is the configured one, from 1 to 32, and the batch size the
      configured positive one, in every state. */
  lemma ConfiguredLimits(maxAttempts: int, count: int, queueSize: int, acts: seq<Action>, s: State)
    requires Steps(Init(maxAttempts, count, queueSize), acts, s)
    ensures 1 <= maxAttempts <= 32 ==> s.maxAttempts == maxAttempts
    ensures maxAttempts <= 0 ==> s.maxAttempts == 5
    ensures maxAttempts > 32 ==> s.maxAttempts == 32
    ensures s.count == if count > 0 then count else 100
  {
    StepsSettings(Init(maxAttempts, count, queueSize), acts, s);
    hide Steps;
  }
}
