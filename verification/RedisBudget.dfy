// The retry budget of the Redis consumer.
//
// The attempt of a reclaimed entry is read off a pending scan limited to count rows.
// As long as no claim hands out an entry that the scan had missed and that had been
// delivered more than once, the attempts an entry is given only rise, each of them
// reaches the handler at most once, and the handler never sees one past the budget.

module RedisBudget {
  import opened Identity
  import opened Sums
  import D = Dispatcher
  import opened SerialGuard
  import opened RedisModel
  import opened RedisSafety

  // ------------------------------------------------------------ the scan itself

  /** A scan lists every pending entry exactly when the pending list is not longer than
      its limit. */
  lemma ScanCompleteExactly(pel: map<nat, nat>, count: nat)
    ensures (forall id :: id in pel ==> id in XPending(pel, count)) <==> |pel| <= count
    ensures forall id :: id in XPending(pel, count) ==> id in pel && XPending(pel, count)[id] == pel[id]
  {
    assert |pel.Keys| == |pel|;
    if |pel| <= count {
      forall id | id in pel ensures |Below(pel, id)| < count {
        assert Below(pel, id) <= pel.Keys - {id};
        SubsetSize(Below(pel, id), pel.Keys - {id});
      }
    } else {
      var top := Greatest(pel.Keys);
      assert Below(pel, top) == pel.Keys - {top};
    }
  }

  lemma SubsetSize(a: set<nat>, b: set<nat>)
    requires a <= b
    ensures |a| <= |b|
  {
    assert b == a + (b - a);
  }

  ghost function Greatest(s: set<nat>): (top: nat)
    requires s != {}
    ensures top in s && forall x :: x in s ==> x <= top
  {
    var x :| x in s;
    if s == {x} then x
    else
      var y := Greatest(s - {x});
      assert forall z :: z in s ==> z == x || z in s - {x};
      if x > y then x else y
  }

  /** The scan of a pending list and of the same list without its last entry. */
  lemma ScanWithoutLast(pel: map<nat, nat>, count: nat, last: nat)
    requires last in pel && forall id :: id in pel ==> id <= last
    ensures var fewer := pel - {last};
      |fewer| == |pel| - 1 && XPending(pel, count) == if |fewer| < count then pel else XPending(fewer, count)
  {
    var fewer := pel - {last};
    assert |pel.Keys| == |pel| && |fewer.Keys| == |fewer| && pel.Keys == fewer.Keys + {last};
    assert Below(pel, last) == fewer.Keys;
    if |fewer| < count {
      forall id | id in pel ensures |Below(pel, id)| < count {
        SubsetSize(Below(pel, id), fewer.Keys);
      }
    } else {
      forall id | id in fewer ensures Below(pel, id) == Below(fewer, id) {
      }
    }
  }

  lemma {:induction false} ScanSize(pel: map<nat, nat>, count: nat)
    ensures |XPending(pel, count)| == if |pel| < count then |pel| else count
    decreases |pel|
  {
    hide XPending, Below;
    if pel == map[] {
      NothingPending(count);
    } else {
      var last := Greatest(pel.Keys);
      ScanWithoutLast(pel, count, last);
      ScanSize(pel - {last}, count);
    }
  }

  lemma NothingPending(count: nat)
    ensures XPending(map[], count) == map[]
  {
  }

  /** A scan lists as many pending entries as its limit allows, with the deliveries they have
      had, and leaves out none before one that it lists. */
  lemma ScanListsFirst(pel: map<nat, nat>, count: nat)
    ensures var scan := XPending(pel, count);
      && |scan| == (if |pel| < count then |pel| else count)
      && (forall id :: id in scan ==> id in pel && scan[id] == pel[id])
      && forall id, j :: id in scan && j in pel && j !in scan ==> id < j
  {
    ScanSize(pel, count);
    forall id, j | id in XPending(pel, count) && j in pel && j !in XPending(pel, count)
      ensures id < j
    {
      if j <= id {
        SubsetSize(Below(pel, j), Below(pel, id));
      }
    }
  }

  /** The derived attempt is the next delivery exactly when the scan listed the entry or
      the entry had been delivered once. */
  lemma ClaimAttemptRightExactly(pel: map<nat, nat>, count: nat, id: nat)
    requires id in pel && pel[id] >= 1
    ensures ClaimAttempt(XPending(pel, count), id) == pel[id] + 1 <==> id in XPending(pel, count) || pel[id] == 1
  {
    assert id in XPending(pel, count) ==> XPending(pel, count)[id] == pel[id];
  }

  // ---------------------------------------------------------------- invariant

  predicate Rising(attempts: seq<nat>) {
    && (forall i :: 0 <= i < |attempts| ==> attempts[i] >= 1)
    && (forall i, j :: 0 <= i < j < |attempts| ==> attempts[i] < attempts[j])
  }

  ghost predicate GivenOk(srv: Server, h: History, id: nat) {
    && Rising(GivenTo(h, id))
    && (id >= srv.next ==> GivenTo(h, id) == [])
    && (id in srv.pel ==> srv.pel[id] >= 1 && forall i :: 0 <= i < |GivenTo(h, id)| ==>
       GivenTo(h, id)[i] <= srv.pel[id])
  }

  /** The scan in hand still tells the delivery counts of the pending entries it lists. */
  ghost predicate ScanOk(srv: Server, scan: Option<map<nat, nat>>) {
    scan.Some? ==>
      && (forall id :: id in scan.value ==> id < srv.next)
      && (forall id :: id in srv.pel && id in scan.value ==> scan.value[id] == srv.pel[id])
  }

  ghost predicate SortedJobs(jobs: seq<Job>) {
    forall i, j :: 0 <= i < j < |jobs| ==> jobs[i].id < jobs[j].id
  }

  /** The jobs of a batch are where they should be, each once. */
  ghost predicate BatchPlaced(h: History, jobs: seq<Job>, claimed: bool) {
    && SortedJobs(jobs)
    && (forall i :: 0 <= i < |jobs| ==> jobs[i] in h.place && h.place[jobs[i]] == InBatch(claimed))
  }

  ghost predicate PlacesOk(h: History) {
    forall job :: job in h.place ==>
      job.attempt in GivenTo(h, job.id) && (h.place[job].InRun? ==> h.place[job].epoch <= h.epoch)
  }

  function JobOfTask(task: D.Task): Job {
    Job(if task.entry.Some? then task.entry.value else 0, task.attempt)
  }

  ghost predicate TaskPlaced(h: History, task: D.Task, index: nat, max: nat) {
    var job := JobOfTask(task);
    job in h.place && h.place[job] == InRun(h.epoch, index) && 1 <= job.attempt <= max
  }

  /** The index-th accepted task of a run is the one placed there, within the budget. */
  ghost predicate AcceptedPlaced(h: History, d: D.State, max: nat) {
    forall run, i :: 0 <= i < |At(d.accepted, run)| ==> TaskPlaced(h, At(d.accepted, run)[i], i, max)
  }

  function RunOfEntry(stream: seq<Frame>, id: nat): string {
    if id < |stream| && stream[id].Good? then stream[id].env.runId else ""
  }

  /** Some worker of the run has got past its handler call. */
  ghost predicate PastCall(p: Process, run: string) {
    exists w :: Busy(p.disp, w) && p.disp.workers[w].run == run && w in p.stages && !p.stages[w].Lookup? &&
      !p.stages[w].Call?
  }

  /** The call was made by a task of an earlier dispatcher, by one that completed, or by
      the one being run. */
  ghost predicate CallPlaced(stream: seq<Frame>, p: Process, h: History, job: Job) {
    && job in h.place && h.place[job].InRun?
    && (h.place[job].epoch < h.epoch
        || h.place[job].index < |At(p.disp.completed, RunOfEntry(stream, job.id))|
        || (h.place[job].index == |At(p.disp.completed, RunOfEntry(stream, job.id))| &&
           PastCall(p, RunOfEntry(stream, job.id))))
  }

  predicate Distinct(calls: seq<Job>) {
    forall i, j :: 0 <= i < j < |calls| ==> calls[i] != calls[j]
  }

  ghost predicate CallsOk(stream: seq<Frame>, p: Process, h: History, max: nat) {
    && Distinct(h.calls)
    && (forall i :: 0 <= i < |h.calls| ==> CallPlaced(stream, p, h, h.calls[i]) && 1 <= h.calls[i].attempt <= max)
  }

  ghost predicate Budget(s: State) {
    && (forall id :: GivenOk(s.srv, s.hist, id))
    && ScanOk(s.srv, s.proc.scan)
    && PlacesOk(s.hist)
    && BatchPlaced(s.hist, s.proc.reader.jobs, false) && BatchPlaced(s.hist, s.proc.claimer.jobs, true)
    && AcceptedPlaced(s.hist, s.proc.disp, s.maxAttempts)
    && CallsOk(s.srv.stream, s.proc, s.hist, s.maxAttempts)
  }

  ghost predicate BudgetOk(s: State) {
    !s.hist.blind ==> Budget(s)
  }

  lemma InitBudget(maxAttempts: int, count: int, queueSize: int)
    ensures BudgetOk(Init(maxAttempts, count, queueSize))
  {
  }

  // ------------------------------------------------------- handing out attempts

  function AttemptsFor(jobs: seq<Job>, id: nat): seq<nat>
    decreases |jobs|
  {
    if jobs == [] then [] else (if jobs[0].id == id then [jobs[0].attempt] else []) + AttemptsFor(jobs[1..], id)
  }

  function Give(h: History, job: Job, claimed: bool): History {
    h.(given := h.given[job.id := GivenTo(h, job.id) + [job.attempt]], place := h.place[job := InBatch(claimed)])
  }

  /** Handing out a batch appends each job's attempt to its entry's list. */
  lemma {:induction false} GiveAllAppends(h: History, jobs: seq<Job>, claimed: bool, id: nat)
    ensures GivenTo(GiveAll(h, jobs, claimed), id) == GivenTo(h, id) + AttemptsFor(jobs, id)
    decreases |jobs|
  {
    if jobs != [] {
      var g := Give(h, jobs[0], claimed);
      GiveAllAppends(g, jobs[1..], claimed, id);
      assert GivenTo(g, id) == GivenTo(h, id) + (if jobs[0].id == id then [jobs[0].attempt] else []);
    }
  }

  /** It puts every job in the batch and leaves the others where they are. */
  lemma {:induction false} GiveAllPuts(h: History, jobs: seq<Job>, claimed: bool, job: Job)
    ensures var place := GiveAll(h, jobs, claimed).place;
      && (job in place <==> job in h.place || job in jobs)
      && (job in place ==> place[job] == if job in jobs then InBatch(claimed) else h.place[job])
    decreases |jobs|
  {
    if jobs != [] {
      var g := Give(h, jobs[0], claimed);
      GiveAllPuts(g, jobs[1..], claimed, job);
      assert job in jobs <==> job == jobs[0] || job in jobs[1..];
      assert GiveAll(h, jobs, claimed) == GiveAll(g, jobs[1..], claimed);
      hide GiveAll;
    }
  }

  lemma {:induction false} AttemptsForAbsent(jobs: seq<Job>, id: nat)
    requires forall i :: 0 <= i < |jobs| ==> jobs[i].id != id
    ensures AttemptsFor(jobs, id) == []
    decreases |jobs|
  {
    if jobs != [] {
      AttemptsForAbsent(jobs[1..], id);
    }
  }

  /** A sorted batch has at most one job for an entry. */
  lemma {:induction false} AttemptsForOne(jobs: seq<Job>, i: nat)
    requires SortedJobs(jobs) && i < |jobs|
    ensures AttemptsFor(jobs, jobs[i].id) == [jobs[i].attempt]
    decreases |jobs|
  {
    if i == 0 {
      AttemptsForAbsent(jobs[1..], jobs[0].id);
    } else {
      AttemptsForOne(jobs[1..], i - 1);
    }
  }

  /** The jobs of a batch about to be handed out: new deliveries of their entries. */
  ghost predicate Fresh(srv: Server, srv': Server, h: History, jobs: seq<Job>) {
    && SortedJobs(jobs)
    && (forall i :: 0 <= i < |jobs| ==> FreshJob(srv', h, jobs[i]))
  }

  ghost predicate FreshJob(srv': Server, h: History, job: Job) {
    && job.id < srv'.next && job.id in srv'.pel && job.attempt == srv'.pel[job.id] >= 1
    && forall i :: 0 <= i < |GivenTo(h, job.id)| ==> GivenTo(h, job.id)[i] < job.attempt
  }

  /** Delivery counts only rise, and only delivered entries have them. */
  ghost predicate CountsRise(srv: Server, srv': Server) {
    && srv.next <= srv'.next
    && (forall id :: id in srv'.pel ==>
       srv'.pel[id] >= 1 && (id in srv.pel ==> srv.pel[id] <= srv'.pel[id]) && (id !in srv.pel ==> id >= srv.next))
  }

  lemma GivenOkGrows(srv: Server, srv': Server, h: History, id: nat)
    requires CountsRise(srv, srv') && GivenOk(srv, h, id)
    ensures GivenOk(srv', h, id)
  {
    hide Rising;
  }

  lemma RisingPush(attempts: seq<nat>, a: nat)
    requires Rising(attempts) && a >= 1 && forall i :: 0 <= i < |attempts| ==> attempts[i] < a
    ensures Rising(attempts + [a])
  {
  }

  lemma GiveAllGiven(srv: Server, srv': Server, h: History, jobs: seq<Job>, claimed: bool, id: nat)
    requires Fresh(srv, srv', h, jobs) && CountsRise(srv, srv') && GivenOk(srv, h, id)
    ensures GivenOk(srv', GiveAll(h, jobs, claimed), id)
  {
    GiveAllAppends(h, jobs, claimed, id);
    var given := GivenTo(h, id);
    if i :| 0 <= i < |jobs| && jobs[i].id == id {
      AttemptsForOne(jobs, i);
      assert FreshJob(srv', h, jobs[i]);
      RisingPush(given, jobs[i].attempt);
      hide GiveAll, GivenTo, Rising, Fresh, CountsRise, FreshJob, AttemptsFor;
    } else {
      AttemptsForAbsent(jobs, id);
      GivenOkGrows(srv, srv', h, id);
      assert given + [] == given;
      hide GiveAll, GivenTo, Rising, Fresh, CountsRise, FreshJob, AttemptsFor;
    }
  }

  /** A job about to be handed out was never handed out before. */
  lemma FreshIsNew(srv: Server, srv': Server, h: History, jobs: seq<Job>, job: Job)
    requires Fresh(srv, srv', h, jobs) && PlacesOk(h) && job in jobs
    ensures job !in h.place
  {
    var i :| 0 <= i < |jobs| && jobs[i] == job;
    assert FreshJob(srv', h, jobs[i]);
    hide GivenTo;
  }

  lemma GiveAllPlaces(srv: Server, srv': Server, h: History, jobs: seq<Job>, claimed: bool)
    requires Fresh(srv, srv', h, jobs) && PlacesOk(h)
    ensures PlacesOk(GiveAll(h, jobs, claimed))
  {
    var h' := GiveAll(h, jobs, claimed);
    GiveAllEffects(h, jobs, claimed);
    forall job | job in h'.place
      ensures job.attempt in GivenTo(h', job.id) && (h'.place[job].InRun? ==> h'.place[job].epoch <= h'.epoch)
    {
      GiveAllPuts(h, jobs, claimed, job);
      GiveAllAppends(h, jobs, claimed, job.id);
      hide GiveAll, GivenTo, AttemptsFor;
      if job in jobs {
        var i :| 0 <= i < |jobs| && jobs[i] == job;
        AttemptsForOne(jobs, i);
        assert job.attempt in AttemptsFor(jobs, job.id);
      }
    }
  }

  /** Whatever had its place keeps it, and the new batch is in place. */
  lemma GiveAllKeeps(srv: Server, srv': Server, h: History, jobs: seq<Job>, claimed: bool)
    requires Fresh(srv, srv', h, jobs) && PlacesOk(h)
    ensures BatchPlaced(GiveAll(h, jobs, claimed), jobs, claimed)
    ensures SamePlaces(h, GiveAll(h, jobs, claimed))
  {
    var h' := GiveAll(h, jobs, claimed);
    forall job | job in h.place || job in jobs
      ensures job in h'.place && h'.place[job] == if job in jobs then InBatch(claimed) else h.place[job]
      ensures job in h.place ==> job !in jobs
    {
      GiveAllPuts(h, jobs, claimed, job);
      hide GiveAll;
      if job in jobs {
        FreshIsNew(srv, srv', h, jobs, job);
      }
    }
    hide GiveAll, FreshJob, PlacesOk;
  }

  ghost predicate SamePlaces(h: History, h': History) {
    forall job :: job in h.place ==> job in h'.place && h'.place[job] == h.place[job]
  }
}
