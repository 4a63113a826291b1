// The Redis consumer as an object: ack, nack, deliver and the reclaim pass, each server
// command with its two outcomes given, all keeping that nothing is acked silently.

module RedisConsumers {
  import opened RedisModel
  import opened RedisSafety

  /** What became of a command: whether it took effect, and whether the client was told.
      A command reported as done was done. */
  datatype Reply = Reply(done: bool, ok: bool)

  predicate Sane(r: Reply) {
    r.ok ==> r.done
  }

  /** A dead-letter row, and once that is known to be written, an ack. */
  function Dropped(srv: Server, id: nat, row: Reply, ack: Reply): Server {
    var written := AddRow(srv, id, row.done);
    if row.ok then XAck(written, id, ack.done) else written
  }

  /** The replies to the dead-lettering of one entry. */
  datatype Drop = Drop(row: Reply, ack: Reply)

  /** A row that its own validation refuses is not even sent. */
  ghost predicate Possible(srv: Server, id: nat, drop: Drop) {
    Sane(drop.row) && Sane(drop.ack) && (drop.row.done ==> HasWritableRow(srv.stream, id))
  }

  predicate Dropping(drop: Drop) {
    drop.row.ok && drop.ack.ok
  }

  /** What awaits a claimed entry: the replies should it be dead-lettered, and whether the
      dispatcher takes it should it be handed over. */
  datatype Fate = Fate(drop: Drop, taken: bool)

  ghost predicate AllPossible(srv: Server, ids: seq<nat>, fates: seq<Fate>)
    requires |fates| == |ids|
  {
    forall i :: 0 <= i < |ids| ==> Possible(srv, ids[i], fates[i].drop)
  }

  /** The answer to XAUTOCLAIM: the claimed entries, nothing, or an error, after which the
      claim may still have taken effect. */
  datatype ClaimReply = Claimed | Nothing | Failed(done: bool)

  /** The server after one delivery: called says whether the handler was, and succeeds
      what it returned. */
  function Served(srv: Server, job: Job, called: bool, succeeds: bool, cancelled: bool, max: nat, ack: Reply,
                  drop: Drop): Server {
    if !called || succeeds then XAck(srv, job.id, ack.done)
    else if cancelled || job.attempt < max then srv
    else Dropped(srv, job.id, drop.row, drop.ack)
  }

  /** What a pass over claimed entries leaves: the server, the messages the dispatcher took,
      and whether it broke off. */
  datatype Pass = Pass(srv: Server, jobs: seq<Job>, failed: bool)

  predicate Decodable(srv: Server, id: nat) {
    id < |srv.stream| && srv.stream[id].Good?
  }

  function Reclaim(srv: Server, scan: map<nat, nat>, ids: seq<nat>, fates: seq<Fate>, max: nat): Pass
    requires |fates| == |ids|
    decreases |ids|
  {
    if ids == [] then Pass(srv, [], false)
    else
      var job := Job(ids[0], ClaimAttempt(scan, ids[0]));
      var dropped := Dropped(srv, ids[0], fates[0].drop.row, fates[0].drop.ack);
      if job.attempt > max && !Dropping(fates[0].drop) then Pass(dropped, [], true)
      else if job.attempt > max || !Decodable(srv, ids[0]) then Reclaim(dropped, scan, ids[1..], fates[1..], max)
      else
        var rest := Reclaim(srv, scan, ids[1..], fates[1..], max);
        rest.(jobs := (if fates[0].taken then [job] else []) + rest.jobs)
  }

  class RedisConsumer {
    const maxAttempts: nat
    const count: nat
    var srv: Server
    var seen: set<string>
    ghost var effects: set<string>

    /** Every acked entry has had its effect or its row, and what is seen has had effect. */
    ghost predicate Valid()
      reads this
    {
      ServerOk(srv, effects) && seen <= effects && maxAttempts >= 1
    }

    /** A process that starts on a server as earlier ones left it; its memory is empty. */
    constructor (maxAttempts: nat, count: nat, srv: Server, ghost effects: set<string>)
      requires ServerOk(srv, effects) && maxAttempts >= 1
      ensures Valid() && this.srv == srv && seen == {} && this.effects == effects
      ensures this.maxAttempts == maxAttempts && this.count == count
    {
      this.maxAttempts, this.count, this.srv, this.seen, this.effects := maxAttempts, count, srv, {}, effects;
    }

    method Ack(id: nat, reply: Reply) returns (ok: bool)
      requires Valid() && id < srv.next && Settled(srv, effects, id)
      modifies `srv
      ensures Valid() && srv == XAck(old(srv), id, reply.done) && ok == reply.ok
      ensures srv.pel == old(srv.pel) - (if reply.done then {id} else {})
      ensures srv.acked == old(srv.acked) + if reply.done && id in old(srv.pel) then {id} else {}
      ensures srv.rows == old(srv.rows) && srv.stream == old(srv.stream) && srv.next == old(srv.next)
    {
      XAckOk(srv, effects, id, reply.done);
      srv := XAck(srv, id, reply.done);
      ok := reply.ok;
    }

    /** dropToDlq, dlqPartial, and what Nack does once the budget is spent. */
    method DropToDlq(id: nat, drop: Drop) returns (ok: bool)
      requires Valid() && id < srv.next && Possible(srv, id, drop)
      modifies `srv
      ensures Valid() && srv == Dropped(old(srv), id, drop.row, drop.ack) && ok == Dropping(drop)
      ensures ok == (drop.row.ok && drop.ack.ok)
      ensures srv.rows == old(srv.rows) + if drop.row.done then {id} else {}
      ensures var left := drop.row.ok && drop.ack.done;
        && srv.pel == old(srv.pel) - (if left then {id} else {})
        && srv.acked == old(srv.acked) + if left && id in old(srv.pel) then {id} else {}
      ensures srv.stream == old(srv.stream) && srv.next == old(srv.next)
    {
      AddRowOk(srv, effects, id, drop.row.done);
      srv := AddRow(srv, id, drop.row.done);
      if !drop.row.ok {
        return false;
      }
      assert Settled(srv, effects, id);
      ok := Ack(id, drop.ack);
    }

    /** While budget remains a failure leaves the entry pending. */
    method Nack(job: Job, drop: Drop) returns (ok: bool)
      requires Valid() && job.id < srv.next && Possible(srv, job.id, drop)
      modifies `srv
      ensures Valid()
      ensures srv == if job.attempt >= maxAttempts then Dropped(old(srv), job.id, drop.row, drop.ack) else old(srv)
      ensures ok == (job.attempt < maxAttempts || (drop.row.ok && drop.ack.ok))
      ensures var spent := job.attempt >= maxAttempts;
        var left := spent && drop.row.ok && drop.ack.done;
        && srv.rows == old(srv.rows) + (if spent && drop.row.done then {job.id} else {})
        && srv.pel == old(srv.pel) - (if left then {job.id} else {})
        && srv.acked == old(srv.acked) + if left && job.id in old(srv.pel) then {job.id} else {}
      ensures srv.stream == old(srv.stream) && srv.next == old(srv.next)
    {
      if job.attempt >= maxAttempts {
        ok := DropToDlq(job.id, drop);
      } else {
        ok := true;
      }
    }

    /** One delivery: the handler is called unless the event is known; success is recorded
        and acked, a failure is nacked unless the consumer was cancelled.  The entry leaves
        the pending list exactly when the ack of a known or successful event, or the ack after
        the row of an uncancelled failure with no budget left, took effect; a row is added
        exactly by such a failure whose row took effect. */
    method Deliver(job: Job, handlerSucceeds: bool, cancelled: bool, ack: Reply, drop: Drop) returns (called: bool)
      requires Valid() && job.id < srv.next && Decodable(srv, job.id) && Possible(srv, job.id, drop)
      modifies this
      ensures Valid()
      ensures called == (old(srv).stream[job.id].env.eventId !in old(seen))
      ensures seen == old(seen) + if called && handlerSucceeds then {old(srv).stream[job.id].env.eventId} else {}
      ensures effects == old(effects) + if called && handlerSucceeds then {old(srv).stream[job.id].env.eventId} else {}
      ensures srv == Served(old(srv), job, called, handlerSucceeds, cancelled, maxAttempts, ack, drop)
      ensures var finished := !called || handlerSucceeds;
        var spent := !finished && !cancelled && job.attempt >= maxAttempts;
        var left := (finished && ack.done) || (spent && drop.row.ok && drop.ack.done);
        && srv.pel == old(srv.pel) - (if left then {job.id} else {})
        && srv.acked == old(srv.acked) + (if left && job.id in old(srv.pel) then {job.id} else {})
        && srv.rows == old(srv.rows) + if spent && drop.row.done then {job.id} else {}
      ensures srv.stream == old(srv.stream) && srv.next == old(srv.next)
    {
      var event := srv.stream[job.id].env.eventId;
      if event in seen {
        called := false;
        var acked := Ack(job.id, ack);
        return;
      }
      called := true;
      if handlerSucceeds {
        EffectOk(srv, effects, event);
        effects := effects + {event};
        seen := seen + {event};
        var acked := Ack(job.id, ack);
        return;
      }
      if cancelled {
        return;
      }
      var nacked := Nack(job, drop);
    }

    /** The loop over the claimed entries; scan has the deliveries that the scan saw. */
    method SortOut(scan: map<nat, nat>, ids: seq<nat>, fates: seq<Fate>) returns (jobs: seq<Job>, failed: bool)
      requires Valid() && |fates| == |ids| && AllPossible(srv, ids, fates)
      requires forall i :: 0 <= i < |ids| ==> ids[i] < srv.next
      modifies `srv
      ensures Valid() && Pass(srv, jobs, failed) == Reclaim(old(srv), scan, ids, fates, maxAttempts)
    {
      hide Reclaim, ClaimAttempt, Dropped, Dropping, Decodable, HasWritableRow, ServerOk;
      jobs, failed := [], true;
      ghost var whole := Reclaim(srv, scan, ids, fates, maxAttempts);
      assert ids[0..] == ids && fates[0..] == fates;
      for i := 0 to |ids|
        invariant Valid() && srv.next == old(srv).next && srv.stream == old(srv).stream
        invariant var rest := Reclaim(srv, scan, ids[i..], fates[i..], maxAttempts);
          whole == Pass(rest.srv, jobs + rest.jobs, rest.failed)
      {
        var id := ids[i];
        var attempt := ClaimAttempt(scan, id);
        ReclaimStep(srv, scan, ids, fates, maxAttempts, i, jobs);
        assert Possible(srv, id, fates[i].drop);
        if attempt > maxAttempts {
          var ok := DropToDlq(id, fates[i].drop);
          if !ok {
            return;
          }
          continue;
        }
        if !Decodable(srv, id) {
          var ok := DropToDlq(id, fates[i].drop);
          continue;
        }
        if fates[i].taken {
          jobs := jobs + [Job(id, attempt)];
        }
      }
      ReclaimEnd(srv, scan, ids, fates, maxAttempts);
      failed := false;
    }

    /** ClaimOnce.  scanned: XPENDING was answered; claim: the answer to XAUTOCLAIM on ids;
        fates: what awaits each entry.  The jobs are those the dispatcher took. */
    method ClaimOnce(scanned: bool, ids: seq<nat>, claim: ClaimReply, fates: seq<Fate>)
      returns (jobs: seq<Job>, failed: bool)
      requires Valid() && |fates| == |ids| && AllPossible(srv, ids, fates)
      requires forall i :: 0 <= i < |ids| ==> ids[i] in srv.pel
      modifies `srv
      ensures Valid()
      ensures !scanned || claim.Nothing? ==> srv == old(srv) && jobs == [] && failed == !scanned
      ensures scanned && claim.Failed? ==>
        srv == (if claim.done then XAutoClaim(old(srv), ids) else old(srv)) && jobs == [] && failed
      ensures scanned && claim.Claimed? ==>
        Pass(srv, jobs, failed)
          == Reclaim(XAutoClaim(old(srv), ids), XPending(old(srv).pel, count), ids, fates, maxAttempts)
    {
      jobs, failed := [], true;
      if !scanned {
        return;
      }
      var deliveries := XPending(srv.pel, count);
      if claim.Nothing? {
        return [], false;
      }
      if claim.Claimed? || claim.done {
        XAutoClaimOk(srv, effects, ids);
        srv := XAutoClaim(srv, ids);
      }
      if claim.Failed? {
        return;
      }
      jobs, failed := SortOut(deliveries, ids, fates);
    }
  }

  lemma ReclaimEnd(srv: Server, scan: map<nat, nat>, ids: seq<nat>, fates: seq<Fate>, max: nat)
    requires |ids| == |fates|
    ensures Reclaim(srv, scan, ids[|ids|..], fates[|fates|..], max) == Pass(srv, [], false)
  {
  }

  lemma ReclaimStep(srv: Server, scan: map<nat, nat>, ids: seq<nat>, fates: seq<Fate>, max: nat, i: nat, jobs: seq<Job>)
    requires i < |ids| == |fates|
    ensures var rest := Reclaim(srv, scan, ids[i..], fates[i..], max);
      var job := Job(ids[i], ClaimAttempt(scan, ids[i]));
      var drop := fates[i].drop;
      var dropped := Dropped(srv, ids[i], drop.row, drop.ack);
      var later := Reclaim(dropped, scan, ids[i + 1..], fates[i + 1..], max);
      var kept := Reclaim(srv, scan, ids[i + 1..], fates[i + 1..], max);
      if job.attempt > max then rest == (if Dropping(drop) then later else Pass(dropped, [], true))
      else if !Decodable(srv, ids[i]) then rest == later
      else if fates[i].taken then rest == kept.(jobs := [job] + kept.jobs) &&
        jobs + rest.jobs == (jobs + [job]) + kept.jobs
      else rest == kept
  {
    assert ids[i..][0] == ids[i] && ids[i..][1..] == ids[i + 1..];
    assert fates[i..][0] == fates[i] && fates[i..][1..] == fates[i + 1..];
    var kept := Reclaim(srv, scan, ids[i + 1..], fates[i + 1..], max);
    assert [] + kept.jobs == kept.jobs;
  }

  /** A pass writes rows and clears pending entries; it never takes either back, and it
      leaves the entries it was not given alone. */
  lemma {:induction false} ReclaimGrows(srv: Server, scan: map<nat, nat>, ids: seq<nat>, fates: seq<Fate>, max: nat)
    requires |fates| == |ids|
    ensures var after := Reclaim(srv, scan, ids, fates, max).srv;
      && after.stream == srv.stream && srv.rows <= after.rows && after.pel.Keys <= srv.pel.Keys
      && forall id :: id in srv.pel && id !in ids ==> id in after.pel && after.pel[id] == srv.pel[id]
    decreases |ids|
  {
    if ids != [] {
      ReclaimGrows(srv, scan, ids[1..], fates[1..], max);
      ReclaimGrows(Dropped(srv, ids[0], fates[0].drop.row, fates[0].drop.ack), scan, ids[1..], fates[1..], max);
      assert forall id :: id in ids <==> id == ids[0] || id in ids[1..];
    }
  }

  /** An entry that was not claimed stays as it is and is not handed out. */
  lemma {:induction false} ReclaimLeaves(srv: Server, scan: map<nat, nat>, ids: seq<nat>, fates: seq<Fate>, max: nat,
                                         id: nat)
    requires |fates| == |ids| && id !in ids
    ensures var pass := Reclaim(srv, scan, ids, fates, max);
      && (id in pass.srv.pel <==> id in srv.pel) && (id in pass.srv.acked <==> id in srv.acked)
      && (id in pass.srv.rows <==> id in srv.rows) && forall job :: job in pass.jobs ==> job.id != id
    decreases |ids|
  {
    if ids != [] {
      ReclaimLeaves(srv, scan, ids[1..], fates[1..], max, id);
      ReclaimLeaves(Dropped(srv, ids[0], fates[0].drop.row, fates[0].drop.ack), scan, ids[1..], fates[1..], max, id);
    }
  }

  /** Entry i breaks the pass off: past the budget, and not known to be dead-lettered. */
  predicate BreaksAt(scan: map<nat, nat>, ids: seq<nat>, fates: seq<Fate>, max: nat, i: nat)
    requires i < |ids| == |fates|
  {
    ClaimAttempt(scan, ids[i]) > max && !(fates[i].drop.row.ok && fates[i].drop.ack.ok)
  }

  ghost predicate Reaches(scan: map<nat, nat>, ids: seq<nat>, fates: seq<Fate>, max: nat, i: nat)
    requires i <= |ids| == |fates|
  {
    forall j :: 0 <= j < i ==> !BreaksAt(scan, ids, fates, max, j)
  }

  lemma ReachesNext(scan: map<nat, nat>, ids: seq<nat>, fates: seq<Fate>, max: nat, i: nat)
    requires 0 < i <= |ids| == |fates|
    ensures Reaches(scan, ids, fates, max, i) <==>
      !BreaksAt(scan, ids, fates, max, 0) && Reaches(scan, ids[1..], fates[1..], max, i - 1)
  {
    forall j | 0 <= j < i - 1
      ensures BreaksAt(scan, ids[1..], fates[1..], max, j) == BreaksAt(scan, ids, fates, max, j + 1)
    {
    }
    assert forall j :: 1 <= j < i ==>
      BreaksAt(scan, ids[1..], fates[1..], max, j - 1) == BreaksAt(scan, ids, fates, max, j);
    hide BreaksAt;
  }

  lemma {:induction false} BreaksOffExactly(srv: Server, scan: map<nat, nat>, ids: seq<nat>, fates: seq<Fate>, max: nat)
    requires |fates| == |ids|
    ensures Reclaim(srv, scan, ids, fates, max).failed <==> !Reaches(scan, ids, fates, max, |ids|)
    decreases |ids|
  {
    if ids != [] {
      ReachesNext(scan, ids, fates, max, |ids|);
      hide Reaches;
      BreaksOffExactly(srv, scan, ids[1..], fates[1..], max);
      BreaksOffExactly(Dropped(srv, ids[0], fates[0].drop.row, fates[0].drop.ack), scan, ids[1..], fates[1..], max);
    }
  }

  /** What became of one entry: dropped, handed out with this attempt, or neither. */
  predicate Became(before: Server, pass: Pass, id: nat, attempt: nat, drop: Drop, dropped: bool, given: bool) {
    && (id in pass.srv.rows <==> id in before.rows || (dropped && drop.row.done))
    && (id in pass.srv.pel <==> id in before.pel && !(dropped && drop.row.ok && drop.ack.done))
    && (id in pass.srv.acked <==> id in before.acked || (id in before.pel && dropped && drop.row.ok && drop.ack.done))
    && (Job(id, attempt) in pass.jobs <==> given)
  }

  lemma ReclaimHead(srv: Server, scan: map<nat, nat>, ids: seq<nat>, fates: seq<Fate>, max: nat)
    requires |fates| == |ids| > 0 && ids[0] !in ids[1..]
    ensures var attempt := ClaimAttempt(scan, ids[0]);
      var drops := attempt > max || !Decodable(srv, ids[0]);
      Became(srv, Reclaim(srv, scan, ids, fates, max), ids[0], attempt, fates[0].drop, drops,
        !drops && fates[0].taken)
  {
    var dropped := Dropped(srv, ids[0], fates[0].drop.row, fates[0].drop.ack);
    ReclaimLeaves(srv, scan, ids[1..], fates[1..], max, ids[0]);
    ReclaimLeaves(dropped, scan, ids[1..], fates[1..], max, ids[0]);
    hide ClaimAttempt;
  }

  /** The server after the head of a pass. */
  function AfterHead(srv: Server, scan: map<nat, nat>, id: nat, drop: Drop, max: nat): Server {
    if ClaimAttempt(scan, id) > max || !Decodable(srv, id) then Dropped(srv, id, drop.row, drop.ack) else srv
  }

  /** Nothing that happens to the head touches a later entry, unless it breaks the pass off. */
  lemma ReclaimTail(srv: Server, scan: map<nat, nat>, ids: seq<nat>, fates: seq<Fate>, max: nat, k: nat)
    requires |fates| == |ids| && 0 < k < |ids| && ids[k] != ids[0]
    ensures var pass := Reclaim(srv, scan, ids, fates, max);
      var next := AfterHead(srv, scan, ids[0], fates[0].drop, max);
      var later := Reclaim(next, scan, ids[1..], fates[1..], max);
      var id := ids[k];
      if BreaksAt(scan, ids, fates, max, 0) then
        pass.jobs == [] && forall attempt :: Became(srv, pass, id, attempt, fates[k].drop, false, false)
      else
        && Decodable(next, id) == Decodable(srv, id)
        && forall attempt, dropped, given ::
             Became(next, later, id, attempt, fates[k].drop, dropped, given) ==>
             Became(srv, pass, id, attempt, fates[k].drop, dropped, given)
  {
    hide ClaimAttempt;
  }

  lemma {:induction false} ReclaimFates(srv: Server, scan: map<nat, nat>, ids: seq<nat>, fates: seq<Fate>, max: nat,
                                        i: nat)
    requires |fates| == |ids| && Increasing(ids) && i < |ids|
    ensures var attempt := ClaimAttempt(scan, ids[i]);
      var drops := attempt > max || !Decodable(srv, ids[i]);
      var reached := Reaches(scan, ids, fates, max, i);
      Became(srv, Reclaim(srv, scan, ids, fates, max), ids[i], attempt, fates[i].drop, reached && drops,
        reached && !drops && fates[i].taken)
    decreases |ids|
  {
    if i == 0 {
      assert ids[0] !in ids[1..];
      ReclaimHead(srv, scan, ids, fates, max);
    } else {
      var next := AfterHead(srv, scan, ids[0], fates[0].drop, max);
      ReachesNext(scan, ids, fates, max, i);
      ReclaimTail(srv, scan, ids, fates, max, i);
      ReclaimFates(next, scan, ids[1..], fates[1..], max, i - 1);
      assert ids[1..][i - 1] == ids[i] && fates[1..][i - 1] == fates[i];
      assert !BreaksAt(scan, ids, fates, max, 0) || !Reaches(scan, ids, fates, max, i);
      hide Reaches, Increasing, Reclaim, BreaksAt, ClaimAttempt, Decodable, Dropped, AfterHead, Became;
    }
  }

  /** The fate of each claimed entry, pass broken off or not: one that the pass reaches is
      dead-lettered exactly when it is past the budget or does not decode, and handed out
      exactly when it is neither and the dispatcher takes it; one that it does not reach is
      left as it is. */
  lemma ReclaimExactly(srv: Server, scan: map<nat, nat>, ids: seq<nat>, fates: seq<Fate>, max: nat, i: nat)
    requires |fates| == |ids| && Increasing(ids) && i < |ids|
    ensures var pass := Reclaim(srv, scan, ids, fates, max);
      var id, drop := ids[i], fates[i].drop;
      var attempt := if id in scan && scan[id] > 1 then scan[id] + 1 else 2;
      var reached := Reaches(scan, ids, fates, max, i);
      var drops := reached && (attempt > max || id >= |srv.stream| || srv.stream[id].Undecodable?);
      && (id in pass.srv.rows <==> id in srv.rows || (drops && drop.row.done))
      && (id in pass.srv.pel <==> id in srv.pel && !(drops && drop.row.ok && drop.ack.done))
      && (id in pass.srv.acked <==> id in srv.acked || (id in srv.pel && drops && drop.row.ok && drop.ack.done))
      && (Job(id, attempt) in pass.jobs <==> reached && !drops && fates[i].taken)
  {
    ReclaimFates(srv, scan, ids, fates, max, i);
    hide Reaches, Increasing, Reclaim;
  }

  /** What a pass that did not break off did with one claimed entry. */
  predicate SortedOut(before: Server, pass: Pass, scan: map<nat, nat>, id: nat, taken: bool, max: nat) {
    var attempt := ClaimAttempt(scan, id);
    if attempt > max then id in pass.srv.rows && id !in pass.srv.pel
    else Decodable(before, id) && taken ==> Job(id, attempt) in pass.jobs
  }

  /** Only decodable entries within the budget are handed out, with the derived attempt; a
      pass that did not break off has handed out all of those that the dispatcher takes, and
      every entry past the budget has its row and is no longer pending. */
  lemma {:induction false} ReclaimSortsOut(srv: Server, scan: map<nat, nat>, ids: seq<nat>, fates: seq<Fate>, max: nat)
    requires |fates| == |ids| && AllPossible(srv, ids, fates)
    ensures var pass := Reclaim(srv, scan, ids, fates, max);
      && (forall job :: job in pass.jobs ==>
            job.id in ids && job.attempt == ClaimAttempt(scan, job.id) <= max && Decodable(srv, job.id))
      && (!pass.failed ==>
            forall i :: 0 <= i < |ids| ==> SortedOut(srv, pass, scan, ids[i], fates[i].taken, max))
    decreases |ids|
  {
    if ids != [] {
      var drop := fates[0].drop;
      var dropped := Dropped(srv, ids[0], drop.row, drop.ack);
      assert Possible(srv, ids[0], drop);
      assert AllPossible(srv, ids[1..], fates[1..]) && AllPossible(dropped, ids[1..], fates[1..]);
      ReclaimSortsOut(srv, scan, ids[1..], fates[1..], max);
      ReclaimSortsOut(dropped, scan, ids[1..], fates[1..], max);
      ReclaimGrows(dropped, scan, ids[1..], fates[1..], max);
      assert forall id :: id in ids <==> id == ids[0] || id in ids[1..];
      assert forall i :: 1 <= i < |ids| ==> ids[i] == ids[1..][i - 1] && fates[i] == fates[1..][i - 1];
      assert Dropping(drop) ==> ids[0] in dropped.rows && ids[0] !in dropped.pel;
      assert forall id :: Decodable(dropped, id) == Decodable(srv, id);
      hide Dropped, ClaimAttempt, Decodable, Possible;
    }
  }

  /** An entry past the budget whose row cannot be written breaks the pass off at itself: of
      the entries after it none is handed out, and their delivery counts stay as the claim
      raised them. */
  lemma {:induction false} UnwrittenRowBreaksPass(srv: Server, scan: map<nat, nat>, ids: seq<nat>, fates: seq<Fate>,
                                                  max: nat, k: nat)
    requires |fates| == |ids| && k < |ids| && Increasing(ids)
    requires ClaimAttempt(scan, ids[k]) > max && !fates[k].drop.row.ok
    ensures var pass := Reclaim(srv, scan, ids, fates, max);
      && pass.failed && (forall job :: job in pass.jobs ==> job.id < ids[k])
      && forall id :: id in srv.pel && id > ids[k] ==> id in pass.srv.pel && pass.srv.pel[id] == srv.pel[id]
    decreases |ids|
  {
    if k > 0 {
      assert ids[1..][k - 1] == ids[k] && fates[1..][k - 1] == fates[k];
      UnwrittenRowBreaksPass(srv, scan, ids[1..], fates[1..], max, k - 1);
      UnwrittenRowBreaksPass(Dropped(srv, ids[0], fates[0].drop.row, fates[0].drop.ack), scan, ids[1..], fates[1..],
        max, k - 1);
    }
  }
}
