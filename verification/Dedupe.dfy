// The check-then-act duplicate guard that both transports use around a handler.
//
// The check of the seen set and the insertion after a success are two separate locked
// regions with the handler call in between.  What makes the pair sound is that no two
// deliveries of one event are ever between those regions at the same time; that is
// the precondition of Begin, and what the dispatcher provides.

module Dedupe {

  /** Where a delivery stands: before the check; past it, handler not yet successful;
      handler succeeded, event not yet recorded; nothing more to do. */
  datatype Phase = Checking | Cleared | Committed | Settled

  datatype Thread = Thread(event: string, phase: Phase)

  /** commits lists the events whose handler call succeeded, in order. */
  datatype Guard = Guard(seen: set<string>, commits: seq<string>, threads: map<nat, Thread>)

  const FRESH := Guard({}, [], map[])

  predicate InPhase(g: Guard, w: nat, phase: Phase) {
    w in g.threads && g.threads[w].phase == phase
  }

  /** No delivery of the event is under way. */
  predicate Absent(g: Guard, event: string) {
    forall w :: w in g.threads ==> g.threads[w].event != event
  }

  function Goto(g: Guard, w: nat, phase: Phase): Guard
    requires w in g.threads
  {
    g.(threads := g.threads[w := g.threads[w].(phase := phase)])
  }

  function Begin(g: Guard, w: nat, event: string): Guard {
    g.(threads := g.threads[w := Thread(event, Checking)])
  }

  /** alreadyDone: an event already recorded is not handled again. */
  function Check(g: Guard, w: nat): Guard
    requires InPhase(g, w, Checking)
  {
    Goto(g, w, if g.threads[w].event in g.seen then Settled else Cleared)
  }

  /** The handler returned success. */
  function Commit(g: Guard, w: nat): Guard
    requires InPhase(g, w, Cleared)
  {
    Goto(g.(commits := g.commits + [g.threads[w].event]), w, Committed)
  }

  /** markDone. */
  function Mark(g: Guard, w: nat): Guard
    requires InPhase(g, w, Committed)
  {
    Goto(g.(seen := g.seen + {g.threads[w].event}), w, Settled)
  }

  /** The delivery failed for good, or was abandoned. */
  function GiveUp(g: Guard, w: nat): Guard
    requires InPhase(g, w, Cleared)
  {
    Goto(g, w, Settled)
  }

  function End(g: Guard, w: nat): Guard {
    g.(threads := g.threads - {w})
  }

  predicate NoDuplicates(s: seq<string>) {
    forall i, j :: 0 <= i < j < |s| ==> s[i] != s[j]
  }

  /** Distinct deliveries under way are of distinct events. */
  ghost predicate Exclusive(g: Guard) {
    forall v, w :: v in g.threads && w in g.threads && v != w ==> g.threads[v].event != g.threads[w].event
  }

  ghost predicate Pending(g: Guard, event: string) {
    exists w :: InPhase(g, w, Committed) && g.threads[w].event == event
  }

  ghost predicate Inv(g: Guard) {
    && Exclusive(g)
    && NoDuplicates(g.commits)
    && (forall e :: e in g.seen ==> e in g.commits)
    && (forall e :: e in g.commits ==> e in g.seen || Pending(g, e))
    && (forall w :: InPhase(g, w, Cleared) ==> g.threads[w].event !in g.commits)
    && (forall w :: InPhase(g, w, Committed) ==> g.threads[w].event in g.commits)
  }

  lemma FreshInv()
    ensures Inv(FRESH)
  {
  }

  lemma BeginInv(g: Guard, w: nat, event: string)
    requires Inv(g) && w !in g.threads && Absent(g, event)
    ensures Inv(Begin(g, w, event))
  {
    KeepPending(g, Begin(g, w, event), w);
  }

  /** Steps that leave Committed deliveries other than w alone keep them. */
  lemma KeepPending(g: Guard, h: Guard, w: nat)
    requires !InPhase(g, w, Committed)
    requires forall v :: v in g.threads && v != w ==> v in h.threads && h.threads[v] == g.threads[v]
    ensures forall e :: Pending(g, e) ==> Pending(h, e)
  {
    forall e | Pending(g, e) ensures Pending(h, e) {
      var v :| InPhase(g, v, Committed) && g.threads[v].event == e;
      assert InPhase(h, v, Committed) && h.threads[v].event == e;
    }
  }

  /** An event that is not recorded, seen by a delivery that is alone with it, was
      never committed. */
  lemma CheckInv(g: Guard, w: nat)
    requires Inv(g) && InPhase(g, w, Checking)
    ensures Inv(Check(g, w))
  {
    KeepPending(g, Check(g, w), w);
  }

  lemma CommitInv(g: Guard, w: nat)
    requires Inv(g) && InPhase(g, w, Cleared)
    ensures Inv(Commit(g, w))
  {
    var h := Commit(g, w);
    KeepPending(g, h, w);
    assert InPhase(h, w, Committed) && h.threads[w].event == g.threads[w].event;
    assert Pending(h, g.threads[w].event);
  }

  lemma MarkInv(g: Guard, w: nat)
    requires Inv(g) && InPhase(g, w, Committed)
    ensures Inv(Mark(g, w))
  {
    var h := Mark(g, w);
    forall e | e in g.commits && e !in h.seen ensures Pending(h, e) {
      var v :| InPhase(g, v, Committed) && g.threads[v].event == e;
      assert InPhase(h, v, Committed) && h.threads[v].event == e;
    }
  }

  lemma GiveUpInv(g: Guard, w: nat)
    requires Inv(g) && InPhase(g, w, Cleared)
    ensures Inv(GiveUp(g, w))
  {
    KeepPending(g, GiveUp(g, w), w);
  }

  lemma EndInv(g: Guard, w: nat)
    requires Inv(g) && InPhase(g, w, Settled)
    ensures Inv(End(g, w))
  {
    KeepPending(g, End(g, w), w);
  }

  /** Without exclusion the guard does not work: two deliveries of one event may both
      pass the check before either succeeds. */
  lemma ExclusionIsNeeded(e: string)
    ensures var g := Begin(Begin(FRESH, 0, e), 1, e);
      var h := Check(Check(g, 0), 1);
      InPhase(h, 0, Cleared) && InPhase(h, 1, Cleared)
      && InPhase(Commit(h, 0), 1, Cleared) && !NoDuplicates(Commit(Commit(h, 0), 1).commits)
  {
    var h := Check(Check(Begin(Begin(FRESH, 0, e), 1, e), 0), 1);
    assert Commit(Commit(h, 0), 1).commits[0] == Commit(Commit(h, 0), 1).commits[1];
  }
}
