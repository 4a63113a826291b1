// What the retry budget of the Redis consumer amounts to over whole runs.

module RedisRetries {
  import opened Identity
  import opened Sums
  import D = Dispatcher
  import opened SerialGuard
  import opened RedisModel
  import opened RedisSafety
  import opened RedisBudget
  import opened RedisRuns

  // ------------------------------------------------ right attempts, blind claims

  /** Some claim of the run hands out an entry that its scan had missed and that had been
      delivered more than once. */
  ghost predicate SomeBlindClaim(s: State, acts: seq<Action>)
    decreases |acts|
  {
    acts != [] && Enabled(s, acts[0]) && (IsBlind(s, acts[0]) || SomeBlindClaim(Apply(s, acts[0]), acts[1..]))
  }

  /** The jobs a step hands out. */
  function HandedOut(s: State, a: Action): seq<Job> {
    if a.Read? then DoRead(s, a.n, a.lost).proc.reader.jobs
    else if a.Claim? && s.proc.scan.Some? then ClaimJobs(s.proc.scan.value, a.ids, a.lost)
    else []
  }

  /** Each job a step hands out carries the delivery count its entry has after the step. */
  ghost predicate HandsOutRight(s: State, a: Action)
    requires Enabled(s, a)
  {
    forall i :: 0 <= i < |HandedOut(s, a)| ==> CountIs(Apply(s, a).srv, HandedOut(s, a)[i])
  }

  predicate CountIs(srv: Server, job: Job) {
    job.id in srv.pel && srv.pel[job.id] == job.attempt
  }

  ghost predicate AllHandedOutRight(s: State, acts: seq<Action>)
    decreases |acts|
  {
    acts == [] || (Enabled(s, acts[0]) && HandsOutRight(s, acts[0]) && AllHandedOutRight(Apply(s, acts[0]), acts[1..]))
  }

  /** Pending entries have been delivered, and the scan in hand tells how often. */
  ghost predicate ScanMatches(s: State) {
    (forall id :: id in s.srv.pel ==> s.srv.pel[id] >= 1) && ScanOk(s.srv, s.proc.scan)
  }

  lemma SameScan(s: State, t: State)
    requires ScanMatches(s) && PelShrinks(s.srv, t.srv) && (t.proc.scan == s.proc.scan || t.proc.scan.None?)
    ensures ScanMatches(t)
  {
  }

  predicate TouchesScan(a: Action) {
    a.Read? || a.Scan? || a.Claim?
  }

  lemma OtherSteps(s: State, a: Action)
    requires Enabled(s, a) && !TouchesScan(a)
    ensures PelShrinks(s.srv, Apply(s, a).srv)
    ensures Apply(s, a).proc.scan == s.proc.scan || Apply(s, a).proc.scan.None?
  {
    hide GiveAll, ForDlq, ValidIdentity, D.TrySend, D.Take, D.Complete, D.Apply, D.Enabled, ClaimsBlindly,
         HasWritableRow;
  }

  lemma ReadMatches(srv: Server, scan: Option<map<nat, nat>>, n: nat)
    requires ScanOk(srv, scan) && forall id :: id in srv.pel ==> srv.pel[id] >= 1
    ensures ScanOk(XRead(srv, n), scan) && forall id :: id in XRead(srv, n).pel ==> XRead(srv, n).pel[id] >= 1
  {
  }

  lemma StepMatches(s: State, a: Action)
    requires Enabled(s, a) && Inv(s) && ScanMatches(s)
    ensures ScanMatches(Apply(s, a))
  {
    assert forall id :: id in s.srv.pel ==> id < s.srv.next;
    hide Inv, GiveAll, ValidIdentity, ClaimsBlindly, Increasing;
    if !TouchesScan(a) {
      OtherSteps(s, a);
      hide Apply, Enabled, ScanMatches, PelShrinks;
      SameScan(s, Apply(s, a));
    } else if a.Read? {
      hide ScanOk, Delivered, XRead;
      ReadMatches(s.srv, s.proc.scan, a.n);
    } else if a.Scan? {
      hide ScanMatches, XPending;
      ScanTells(s);
    }
  }

  lemma ScanTells(s: State)
    requires ScanMatches(s) && forall id :: id in s.srv.pel ==> id < s.srv.next
    ensures ScanMatches(DoScan(s))
  {
    assert forall id :: id in XPending(s.srv.pel, s.count) ==> id in s.srv.pel;
  }

  /** A step hands out wrong attempts exactly when it is a blind claim. */
  lemma RightUnlessBlind(s: State, a: Action)
    requires Enabled(s, a) && ScanMatches(s)
    ensures HandsOutRight(s, a) <==> !IsBlind(s, a)
  {
    hide GiveAll, D.Enabled, D.Apply, D.TrySend, ForDlq, ValidIdentity;
    if a.Claim? {
      ClaimRightUnlessBlind(s, a.ids, a.lost);
    } else if a.Read? {
      hide ClaimsBlindly;
    } else {
      hide Apply, ClaimsBlindly;
    }
  }

  lemma ClaimRightUnlessBlind(s: State, ids: seq<nat>, lost: bool)
    requires Enabled(s, Claim(ids, lost)) && ScanMatches(s)
    ensures HandsOutRight(s, Claim(ids, lost)) <==> !IsBlind(s, Claim(ids, lost))
  {
    var a := Claim(ids, lost);
    var scan := s.proc.scan.value;
    var srv' := XAutoClaim(s.srv, ids);
    assert Apply(s, a).srv == srv';
    hide Apply, GiveAll;
    if !lost {
      var jobs := HandedOut(s, a);
      forall i | 0 <= i < |ids| ensures CountIs(srv', jobs[i]) <==> !Missed(s.srv, scan, ids[i]) {
        assert ids[i] in ids;
      }
      hide CountIs, Missed;
    }
  }

  lemma {:induction false} RightUnlessBlindRun(s: State, acts: seq<Action>, t: State)
    requires Inv(s) && ScanMatches(s) && Steps(s, acts, t)
    ensures AllHandedOutRight(s, acts) <==> !SomeBlindClaim(s, acts)
    decreases |acts|
  {
    hide Inv, ScanMatches, HandsOutRight, IsBlind;
    if acts != [] {
      StepInv(s, acts[0]);
      StepMatches(s, acts[0]);
      RightUnlessBlind(s, acts[0]);
      RightUnlessBlindRun(Apply(s, acts[0]), acts[1..], t);
    }
  }

  /** In every run, each attempt handed out is its entry's new delivery count exactly when
      no claim of the run is blind. */
  lemma AttemptsRightExactly(maxAttempts: int, count: int, queueSize: int, acts: seq<Action>, s: State)
    requires Steps(Init(maxAttempts, count, queueSize), acts, s)
    ensures AllHandedOutRight(Init(maxAttempts, count, queueSize), acts)
       <==> !SomeBlindClaim(Init(maxAttempts, count, queueSize), acts)
  {
    InitInv(maxAttempts, count, queueSize);
    RightUnlessBlindRun(Init(maxAttempts, count, queueSize), acts, s);
  }

  lemma {:induction false} BlindExactly(s: State, acts: seq<Action>, t: State)
    requires Steps(s, acts, t)
    ensures t.hist.blind <==> s.hist.blind || SomeBlindClaim(s, acts)
    decreases |acts|
  {
    hide Apply, Enabled, IsBlind;
    if acts != [] {
      BlindExactly(Apply(s, acts[0]), acts[1..], t);
      BlindByClaim(s, acts[0]);
    }
  }

  // ------------------------------------------------------------- complete scans

  /** At some scan of the run the pending list was longer than the scan's limit. */
  ghost predicate SomeScanShort(s: State, acts: seq<Action>)
    decreases |acts|
  {
    acts != [] && Enabled(s, acts[0])
    && ((acts[0].Scan? && |s.srv.pel| > s.count) || SomeScanShort(Apply(s, acts[0]), acts[1..]))
  }

  /** The scan in hand misses at most entries delivered once. */
  ghost predicate ScanComplete(s: State) {
    s.proc.scan.Some? ==> forall id :: !Missed(s.srv, s.proc.scan.value, id)
  }

  lemma ReadComplete(srv: Server, scan: map<nat, nat>, n: nat, id: nat)
    ensures Missed(XRead(srv, n), scan, id) ==> Missed(srv, scan, id)
  {
  }

  lemma StepComplete(s: State, a: Action)
    requires Enabled(s, a) && ScanComplete(s) && !(a.Scan? && |s.srv.pel| > s.count)
    ensures ScanComplete(Apply(s, a))
  {
    hide GiveAll, ValidIdentity, ClaimsBlindly, Increasing;
    if !TouchesScan(a) {
      OtherSteps(s, a);
      hide Apply, Enabled, ScanComplete, PelShrinks;
      SameComplete(s, Apply(s, a));
    } else if a.Read? {
      hide Missed, XRead;
      if s.proc.scan.Some? {
        forall id ensures !Missed(XRead(s.srv, a.n), s.proc.scan.value, id) {
          ReadComplete(s.srv, s.proc.scan.value, a.n, id);
        }
      }
    } else if a.Scan? {
      ScanCompleteExactly(s.srv.pel, s.count);
      hide XPending;
    }
  }

  lemma SameComplete(s: State, t: State)
    requires ScanComplete(s) && PelShrinks(s.srv, t.srv) && (t.proc.scan == s.proc.scan || t.proc.scan.None?)
    ensures ScanComplete(t)
  {
    if t.proc.scan.Some? {
      forall id ensures !Missed(t.srv, t.proc.scan.value, id) {
        assert !Missed(s.srv, s.proc.scan.value, id);
      }
    }
  }

  lemma CompleteNotBlind(s: State, a: Action)
    requires ScanComplete(s)
    ensures !IsBlind(s, a)
  {
  }

  /** If at every scan the pending list is within the limit, no claim is blind. */
  lemma {:induction false} CompleteScansNeverBlind(s: State, acts: seq<Action>, t: State)
    requires ScanComplete(s) && Steps(s, acts, t) && !SomeScanShort(s, acts)
    ensures !SomeBlindClaim(s, acts)
    decreases |acts|
  {
    hide ScanComplete, IsBlind, Enabled, Apply;
    if acts != [] {
      StepComplete(s, acts[0]);
      CompleteNotBlind(s, acts[0]);
      CompleteScansNeverBlind(Apply(s, acts[0]), acts[1..], t);
    }
  }

  // ------------------------------------------------------- counting the calls

  /** How often the handler was called for an entry. */
  function CallsFor(calls: seq<Job>, id: nat): nat {
    if calls == [] then 0 else (if calls[|calls| - 1].id == id then 1 else 0) + CallsFor(calls[..|calls| - 1], id)
  }

  function Attempts(calls: seq<Job>, id: nat): (s: set<nat>)
    ensures forall a :: a in s <==> Job(id, a) in calls
  {
    if calls == [] then {} else
      assert forall a :: Job(id, a) in calls <==>
        Job(id, a) in calls[..|calls| - 1] || calls[|calls| - 1] == Job(id, a);
      Attempts(calls[..|calls| - 1], id) + (if calls[|calls| - 1].id == id then {calls[|calls| - 1].attempt} else {})
  }

  /** Distinct calls for an entry have distinct attempts. */
  lemma {:induction false} CallsAreAttempts(calls: seq<Job>, id: nat)
    requires Distinct(calls)
    ensures CallsFor(calls, id) == |Attempts(calls, id)|
  {
    if calls != [] {
      var n := |calls| - 1;
      CallsAreAttempts(calls[..n], id);
      if calls[n].id == id {
        assert calls[n] !in calls[..n];
        assert Job(id, calls[n].attempt) == calls[n];
      }
    }
  }

  function UpTo(n: nat): (s: set<nat>)
    ensures forall a :: a in s <==> 1 <= a <= n
    ensures |s| == n
  {
    if n == 0 then {} else UpTo(n - 1) + {n}
  }

  lemma CallsWithin(calls: seq<Job>, id: nat, max: nat)
    requires Distinct(calls) && forall i :: 0 <= i < |calls| ==> 1 <= calls[i].attempt <= max
    ensures CallsFor(calls, id) <= max
  {
    CallsAreAttempts(calls, id);
    forall a | a in Attempts(calls, id) ensures a in UpTo(max) {
      var i :| 0 <= i < |calls| && calls[i] == Job(id, a);
    }
    SubsetSize(Attempts(calls, id), UpTo(max));
  }

  /** In every run without a blind claim, the attempts an entry was given rise strictly from
      at least 1, a pending entry was never given more than its delivery count, each attempt
      reaches the handler at most once, and the handler runs at most as often for an entry as
      was configured. */
  lemma RetryBudget(maxAttempts: int, count: int, queueSize: int, acts: seq<Action>, s: State, id: nat)
    requires Steps(Init(maxAttempts, count, queueSize), acts, s)
    requires !SomeBlindClaim(Init(maxAttempts, count, queueSize), acts)
    ensures Rising(GivenTo(s.hist, id))
    ensures id in s.srv.pel ==>
      forall i :: 0 <= i < |GivenTo(s.hist, id)| ==> GivenTo(s.hist, id)[i] <= s.srv.pel[id]
    ensures Distinct(s.hist.calls)
    ensures forall job :: job in s.hist.calls ==> job.attempt in GivenTo(s.hist, job.id)
    ensures CallsFor(s.hist.calls, id) <= s.maxAttempts
    ensures 1 <= maxAttempts <= 32 ==> CallsFor(s.hist.calls, id) <= maxAttempts
    ensures maxAttempts <= 0 ==> CallsFor(s.hist.calls, id) <= 5
    ensures maxAttempts > 32 ==> CallsFor(s.hist.calls, id) <= 32
  {
    ConfiguredLimits(maxAttempts, count, queueSize, acts, s);
    InitInv(maxAttempts, count, queueSize);
    InitBudget(maxAttempts, count, queueSize);
    StepsBudget(Init(maxAttempts, count, queueSize), acts, s);
    BlindExactly(Init(maxAttempts, count, queueSize), acts, s);
    hide Inv, Steps, SomeBlindClaim, CallPlaced;
    assert GivenOk(s.srv, s.hist, id);
    CallsWithin(s.hist.calls, id, s.maxAttempts);
    forall job | job in s.hist.calls ensures job.attempt in GivenTo(s.hist, job.id) {
      CallWasGiven(s, job);
    }
  }

  /** In particular when the pending list never outgrows the scans. */
  lemma RetryBudgetWithinCount(maxAttempts: int, count: int, queueSize: int, acts: seq<Action>, s: State, id: nat)
    requires Steps(Init(maxAttempts, count, queueSize), acts, s)
    requires !SomeScanShort(Init(maxAttempts, count, queueSize), acts)
    ensures Rising(GivenTo(s.hist, id)) && Distinct(s.hist.calls) && CallsFor(s.hist.calls, id) <= s.maxAttempts
    ensures 1 <= maxAttempts <= 32 ==> CallsFor(s.hist.calls, id) <= maxAttempts
    ensures maxAttempts <= 0 ==> CallsFor(s.hist.calls, id) <= 5
    ensures maxAttempts > 32 ==> CallsFor(s.hist.calls, id) <= 32
  {
    CompleteScansNeverBlind(Init(maxAttempts, count, queueSize), acts, s);
    hide Steps, SomeScanShort, SomeBlindClaim;
    RetryBudget(maxAttempts, count, queueSize, acts, s, id);
  }

  lemma CallWasGiven(s: State, job: Job)
    requires Budget(s) && job in s.hist.calls
    ensures job.attempt in GivenTo(s.hist, job.id)
  {
    hide GivenOk, ScanOk, BatchPlaced, AcceptedPlaced, GivenTo, PastCall, RunOfEntry;
    var i :| 0 <= i < |s.hist.calls| && s.hist.calls[i] == job;
    assert CallPlaced(s.srv.stream, s.proc, s.hist, s.hist.calls[i]);
  }

  // ------------------------------------------------ past the budget, no handler

  ghost predicate WithinBudget(s: State) {
    && (forall run, i :: 0 <= i < |At(s.proc.disp.accepted, run)| ==>
       At(s.proc.disp.accepted, run)[i].attempt <= s.maxAttempts)
    && (forall i :: 0 <= i < |s.hist.calls| ==> s.hist.calls[i].attempt <= s.maxAttempts)
  }

  lemma SameWithin(s: State, t: State)
    requires WithinBudget(s) && t.maxAttempts == s.maxAttempts && t.hist.calls == s.hist.calls
    requires t.proc.disp.accepted == s.proc.disp.accepted || t.proc.disp.accepted == map[]
    ensures WithinBudget(t)
  {
  }

  lemma SendWithin(s: State, claimed: bool, q: nat, w: nat)
    requires WithinBudget(s) && Enabled(s, BatchSend(claimed, q, w))
    ensures WithinBudget(DoBatchSend(s, claimed, q, w))
  {
    var job := BatchOf(s.proc, claimed).jobs[0];
    var task := Message(s.srv.stream[job.id], job);
    SendAccepts(s.proc.disp, task, q, w);
    hide D.TrySend, D.Enabled;
    var t := DoBatchSend(s, claimed, q, w);
    forall run, i | 0 <= i < |At(t.proc.disp.accepted, run)|
      ensures At(t.proc.disp.accepted, run)[i].attempt <= t.maxAttempts
    {
      assert i < |At(s.proc.disp.accepted, run)| ==>
        At(t.proc.disp.accepted, run)[i] == At(s.proc.disp.accepted, run)[i];
    }
  }

  lemma CallWithin(s: State, w: nat, success: bool)
    requires WithinBudget(s) && Inv(s) && OnStage(s, w, Call)
    ensures WithinBudget(DoCallHandler(s, w, success))
  {
    CallHandlerDoes(s, w, success);
    RunningIndex(s.proc.disp, w);
    hide DoCallHandler, Inv, OnStage;
  }

  lemma ReadWithin(s: State, n: nat, lost: bool)
    requires Enabled(s, Read(n, lost)) && WithinBudget(s)
    ensures WithinBudget(Apply(s, Read(n, lost)))
  {
    hide WithinBudget;
    GiveAllEffects(s.hist, DoRead(s, n, lost).proc.reader.jobs, false);
    SameWithin(s, DoRead(s, n, lost));
  }

  lemma ClaimWithin(s: State, ids: seq<nat>, lost: bool)
    requires Enabled(s, Claim(ids, lost)) && WithinBudget(s)
    ensures WithinBudget(Apply(s, Claim(ids, lost)))
  {
    hide WithinBudget, ClaimsBlindly;
    GiveAllEffects(ClaimHistory(s, ids, lost), DoClaim(s, ids, lost).proc.claimer.jobs, true);
    SameWithin(s, DoClaim(s, ids, lost));
  }

  lemma OtherWithin(s: State, a: Action)
    requires Enabled(s, a) && WithinBudget(s)
    requires !a.BatchSend? && !a.CallHandler? && !a.Read? && !a.Claim? && !a.DispatcherMove? && !a.Take?
    ensures WithinBudget(Apply(s, a))
  {
    hide WithinBudget, ForDlq, D.Enabled, D.Apply, D.Take, D.TrySend, XPending, OnStage, ValidIdentity;
    SameWithin(s, Apply(s, a));
  }

  lemma StepWithin(s: State, a: Action)
    requires Enabled(s, a) && WithinBudget(s) && Inv(s)
    ensures WithinBudget(Apply(s, a))
  {
    hide Inv, WithinBudget, ForDlq, D.Enabled, D.Apply, D.Take, XPending, ClaimsBlindly, ValidIdentity;
    match a
    case BatchSend(claimed, q, w) => SendWithin(s, claimed, q, w);
    case CallHandler(w, success) => CallWithin(s, w, success);
    case Read(n, lost) => ReadWithin(s, n, lost);
    case Claim(ids, lost) => ClaimWithin(s, ids, lost);
    case DispatcherMove(m) =>
      MoveKeepsBusy(s.proc.disp, m);
      SameWithin(s, Apply(s, a));
    case Take(w) =>
      TakeStays(s, w);
      SameWithin(s, Apply(s, a));
    case _ => OtherWithin(s, a);
  }

  lemma {:induction false} StepsWithin(s: State, acts: seq<Action>, t: State)
    requires Inv(s) && WithinBudget(s) && Steps(s, acts, t)
    ensures WithinBudget(t)
    decreases |acts|
  {
    hide Inv, WithinBudget;
    if acts != [] {
      StepInv(s, acts[0]);
      StepWithin(s, acts[0]);
      StepsWithin(Apply(s, acts[0]), acts[1..], t);
    }
  }

  /** In every run, blind claims or not, the handler never sees an attempt past the
      configured budget: such a claim is dead-lettered instead. */
  lemma NeverCalledPastBudget(maxAttempts: int, count: int, queueSize: int, acts: seq<Action>, s: State)
    requires Steps(Init(maxAttempts, count, queueSize), acts, s)
    ensures forall i :: 0 <= i < |s.hist.calls| ==> s.hist.calls[i].attempt <= s.maxAttempts
    ensures 1 <= maxAttempts <= 32 ==> s.maxAttempts == maxAttempts
    ensures maxAttempts <= 0 ==> s.maxAttempts == 5
    ensures maxAttempts > 32 ==> s.maxAttempts == 32
    ensures forall claimed, q, w :: Enabled(s, BatchSend(claimed, q, w)) ==>
      (if claimed then s.proc.claimer else s.proc.reader).jobs[0].attempt <= s.maxAttempts
  {
    InitInv(maxAttempts, count, queueSize);
    ConfiguredLimits(maxAttempts, count, queueSize, acts, s);
    StepsWithin(Init(maxAttempts, count, queueSize), acts, s);
    hide Inv, Steps, D.Enabled;
  }

  // ------------------------------------------------------------- joining runs

  lemma OneStep(s: State, a: Action, t: State)
    requires Enabled(s, a) && t == Apply(s, a)
    ensures Steps(s, [a], t)
  {
    hide Apply, Enabled;
    assert [a][1..] == [];
  }

  lemma {:induction false} StepsJoin(s: State, first: seq<Action>, m: State, second: seq<Action>, t: State)
    requires Steps(s, first, m) && Steps(m, second, t)
    ensures Steps(s, first + second, t)
    decreases |first|
  {
    hide Apply, Enabled;
    if first == [] {
      assert first + second == second;
    } else {
      StepsJoin(Apply(s, first[0]), first[1..], m, second, t);
      assert (first + second)[1..] == first[1..] + second;
    }
  }
}
