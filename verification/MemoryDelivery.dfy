// One delivery of the bus object is a run of the transition system: what Deliver does at
// once, a worker left alone does step by step.

module MemoryDelivery {
  import opened Identity
  import opened Sums
  import D = Dispatcher
  import opened SerialGuard
  import opened MemoryModel
  import opened MemoryBuses

  /** Worker w is inside a delivery of a running Consume loop. */
  ghost predicate Delivering(s: State, w: nat) {
    OnStage(s, w) && s.guard.threads[w].event == TaskOf(s.disp, w).env.eventId && s.front.running
  }

  function EnvOf(s: State, w: nat): Envelope
    requires Busy(s.disp, w)
  {
    TaskOf(s.disp, w).env
  }

  /** A step of worker w, or the cancellation of the loop's context. */
  predicate IsOwn(a: Action, w: nat) {
    match a
    case FindDone(v) => v == w
    case CallHandler(v, _) => v == w
    case Record(v) => v == w
    case Decide(v) => v == w
    case Wait(v, _) => v == w
    case FireHook(v) => v == w
    case Cancel => true
    case _ => false
  }

  /** What belongs to no delivery, or to another one, is the same. */
  ghost predicate RestStays(s: State, t: State, w: nat)
    requires Delivering(s, w) && Delivering(t, w)
  {
    && t.hist.published == s.hist.published && t.queueSize == s.queueSize
    && t.front.pending == s.front.pending && t.front.pump == s.front.pump && t.front.closed == s.front.closed
    && t.stages == s.stages[w := t.stages[w]]
    && t.guard.threads == s.guard.threads[w := t.guard.threads[w]]
    && forall run :: run != EnvOf(s, w).runId ==> At(t.hist.log, run) == At(s.hist.log, run)
  }

  /** acts take the delivery of worker w from s to t. */
  ghost predicate Moves(s: State, acts: seq<Action>, t: State, w: nat) {
    && Steps(s, acts, t) && (forall i :: 0 <= i < |acts| ==> IsOwn(acts[i], w))
    && Delivering(s, w) && Delivering(t, w) && RestStays(s, t, w)
    && t.disp == s.disp && t.maxAttempts == s.maxAttempts
  }

  lemma {:induction false} StepsJoin(s: State, first: seq<Action>, m: State, second: seq<Action>, t: State)
    requires Steps(s, first, m) && Steps(m, second, t)
    ensures Steps(s, first + second, t)
    decreases |first|
  {
    hide Apply, Enabled;
    if first == [] {
      assert first + second == second;
    } else {
      StepsJoin(Apply(s, first[0]), first[1..], m, second, t);
      assert (first + second)[1..] == first[1..] + second;
    }
  }

  lemma RestStaysOn(s: State, m: State, t: State, w: nat)
    requires Delivering(s, w) && Delivering(m, w) && Delivering(t, w) && RestStays(s, m, w) && RestStays(m, t, w)
    requires m.disp == s.disp
    ensures RestStays(s, t, w)
  {
    hide Delivering;
  }

  lemma MovesOn(s: State, first: seq<Action>, m: State, second: seq<Action>, t: State, w: nat)
    requires Moves(s, first, m, w) && Moves(m, second, t, w)
    ensures Moves(s, first + second, t, w)
  {
    hide Delivering, RestStays, Steps, IsOwn;
    StepsJoin(s, first, m, second, t);
    RestStaysOn(s, m, t, w);
  }

  lemma MovesOne(s: State, a: Action, t: State, w: nat)
    requires Enabled(s, a) && t == Apply(s, a) && IsOwn(a, w)
    requires Delivering(s, w) && Delivering(t, w) && RestStays(s, t, w)
    requires t.disp == s.disp && t.maxAttempts == s.maxAttempts
    ensures Moves(s, [a], t, w)
  {
    hide Apply, Enabled, Delivering, RestStays, IsOwn;
    assert [a][1..] == [] && Steps(t, [], t);
  }

  // ------------------------------------------------------------------ the books

  /** What deliveries leave behind, as the object keeps it. */
  datatype Books = Books(log: seq<Entry>, seen: set<string>, dlq: seq<DeadLetter>, counters: Counters)

  function BooksOf(s: State, w: nat): Books
    requires Busy(s.disp, w)
  {
    Books(At(s.hist.log, EnvOf(s, w).runId), s.guard.seen, s.hist.dlq, s.counters)
  }

  function Last(entries: seq<Entry>): Entry
    requires entries != []
  {
    entries[|entries| - 1]
  }

  /** The books after the attempts from n on, as fate has them: Deliver's contract. */
  function Delivered(b: Books, env: Envelope, fate: nat -> Attempt, n: nat, max: nat): Books
    requires 1 <= n <= max
  {
    var entries := Attempts(env.eventId, fate, n, max);
    Books(b.log + entries, b.seen + (if Wins(fate, n, max) then {env.eventId} else {}),
          b.dlq + LetterFor(env, Last(entries)), Tally(b.counters, fate, n, max))
  }

  function Logged(b: Books, entry: Entry): Books {
    b.(log := b.log + [entry])
  }

  function Counted(b: Books, stage: Stage): Books
    requires HasHook(stage)
  {
    b.(counters := Count(b.counters, stage))
  }

  /** A failed call and its hook. */
  function FailedBooks(b: Books, env: Envelope, n: nat): Books {
    Counted(Logged(b, Tried(env.eventId, n, false)), FailHook(n))
  }

  function DeadBooks(b: Books, env: Envelope, n: nat): Books {
    Counted(Logged(b, Dead(env.eventId, n)).(dlq := b.dlq + LetterFor(env, Dead(env.eventId, n))), DeadHook)
  }

  function WonBooks(b: Books, env: Envelope, n: nat): Books {
    var counted := Counted(Logged(b, Tried(env.eventId, n, true)), OkHook(n));
    Counted(counted.(seen := b.seen + {env.eventId}), AckHook(n))
  }

  /** What one attempt and what follows it make of the books. */
  lemma DeliveredStep(b: Books, env: Envelope, fate: nat -> Attempt, n: nat, max: nat)
    requires 1 <= n <= max
    ensures var failed := FailedBooks(b, env, n);
      var paused := Counted(failed, RetryHook(n));
      Delivered(b, env, fate, n, max) ==
        if fate(n).Succeeds? then WonBooks(b, env, n)
        else if fate(n).FailsCancelled? then failed.(counters := Cut(failed.counters))
        else if n == max then DeadBooks(failed, env, n)
        else if fate(n).FailsThenCut? then paused.(counters := CutInDelay(paused.counters))
        else Delivered(paused, env, fate, n + 1, max)
  {
    hide Count;
    var tried := Tried(env.eventId, n, false);
    assert b.log + [tried] + [Dead(env.eventId, n)] == b.log + [tried, Dead(env.eventId, n)];
    if fate(n).FailsUncut? && n < max {
      var later := Attempts(env.eventId, fate, n + 1, max);
      assert b.log + [tried] + later == b.log + ([tried] + later);
      assert Last([tried] + later) == Last(later);
    }
  }

  // --------------------------------------------------------------- single steps

  lemma FindStep(s: State, w: nat) returns (t: State)
    requires Delivering(s, w) && s.stages[w].Lookup?
    ensures Moves(s, [FindDone(w)], t, w) && BooksOf(t, w) == BooksOf(s, w) && t.hist == s.hist
    ensures t.stages[w] == if EnvOf(s, w).eventId in s.guard.seen then DupHook else Invoke(1)
    ensures t.front.cancelled == s.front.cancelled
  {
    hide D.Enabled, D.Apply, D.TrySend, D.Take, ValidIdentity;
    t := DoFindDone(s, w);
    hide Moves;
    MovesOne(s, FindDone(w), t, w);
  }

  lemma HookStep(s: State, w: nat) returns (t: State)
    requires Delivering(s, w) && HasHook(s.stages[w])
    ensures Moves(s, [FireHook(w)], t, w) && t.stages[w] == AfterHook(s.stages[w]) && t.hist == s.hist
    ensures BooksOf(t, w) == Counted(BooksOf(s, w), s.stages[w]) && t.front.cancelled == s.front.cancelled
  {
    hide D.Enabled, D.Apply, D.TrySend, D.Take, ValidIdentity;
    t := Apply(s, FireHook(w));
    hide Moves, Count;
    MovesOne(s, FireHook(w), t, w);
  }

  lemma CallStep(s: State, w: nat, ok: bool) returns (t: State)
    requires Delivering(s, w) && s.stages[w].Invoke?
    ensures Moves(s, [CallHandler(w, ok)], t, w) && t.front.cancelled == s.front.cancelled
    ensures t.stages[w] == if ok then OkHook(s.stages[w].attempt) else FailHook(s.stages[w].attempt)
    ensures BooksOf(t, w) == Logged(BooksOf(s, w), Tried(EnvOf(s, w).eventId, s.stages[w].attempt, ok))
  {
    hide D.Enabled, D.Apply, D.TrySend, D.Take, ValidIdentity;
    t := DoCallHandler(s, w, ok);
    hide Moves;
    MovesOne(s, CallHandler(w, ok), t, w);
  }

  lemma RecordStep(s: State, w: nat) returns (t: State)
    requires Delivering(s, w) && s.stages[w].Mark?
    ensures Moves(s, [Record(w)], t, w) && t.stages[w] == AckHook(s.stages[w].attempt)
    ensures BooksOf(t, w) == BooksOf(s, w).(seen := s.guard.seen + {EnvOf(s, w).eventId})
  {
    hide D.Enabled, D.Apply, D.TrySend, D.Take, ValidIdentity;
    t := DoRecord(s, w);
    hide Moves;
    MovesOne(s, Record(w), t, w);
  }

  lemma CancelStep(s: State, w: nat) returns (t: State)
    requires Delivering(s, w)
    ensures Moves(s, [Cancel], t, w) && t.stages[w] == s.stages[w] && t.front.cancelled
    ensures BooksOf(t, w) == BooksOf(s, w)
  {
    hide D.Enabled, D.Apply, D.TrySend, D.Take, ValidIdentity;
    t := Apply(s, Cancel);
    hide Moves;
    MovesOne(s, Cancel, t, w);
  }

  lemma DecideStep(s: State, w: nat) returns (t: State)
    requires Delivering(s, w) && s.stages[w].Judge?
    ensures Moves(s, [Decide(w)], t, w) && t.front.cancelled == s.front.cancelled
    ensures var n, env, b := s.stages[w].attempt, EnvOf(s, w), BooksOf(s, w);
      if s.front.cancelled then t.stages[w] == Over && BooksOf(t, w) == b.(counters := Cut(b.counters))
      else if n < s.maxAttempts then t.stages[w] == RetryHook(n) && BooksOf(t, w) == b
      else
        && t.stages[w] == DeadHook
        && Counted(BooksOf(t, w), DeadHook) == DeadBooks(b, env, n)
  {
    hide D.Enabled, D.Apply, D.TrySend, D.Take, ValidIdentity;
    t := DoDecide(s, w);
    hide Moves, Count;
    MovesOne(s, Decide(w), t, w);
  }

  lemma WaitStep(s: State, w: nat, cut: bool) returns (t: State)
    requires Delivering(s, w) && s.stages[w].Delay? && (cut ==> s.front.cancelled)
    ensures Moves(s, [Wait(w, cut)], t, w) && t.front.cancelled == s.front.cancelled
    ensures t.stages[w] == if cut then Over else Invoke(s.stages[w].attempt + 1)
    ensures var b := BooksOf(s, w); BooksOf(t, w) == if cut then b.(counters := CutInDelay(b.counters)) else b
  {
    hide D.Enabled, D.Apply, D.TrySend, D.Take, ValidIdentity;
    t := DoWait(s, w, cut);
    hide Moves;
    MovesOne(s, Wait(w, cut), t, w);
  }

  // ------------------------------------------------------------------ stretches

  /** A call that succeeds, to the end of its delivery. */
  lemma WinSteps(s: State, w: nat) returns (acts: seq<Action>, t: State)
    requires Delivering(s, w) && s.stages[w].Invoke?
    ensures Moves(s, acts, t, w) && t.stages[w] == Over
    ensures BooksOf(t, w) == WonBooks(BooksOf(s, w), EnvOf(s, w), s.stages[w].attempt)
  {
    hide Steps, IsOwn, Count, RestStays;
    var m1 := CallStep(s, w, true);
    var m2 := HookStep(m1, w);
    var m3 := RecordStep(m2, w);
    t := HookStep(m3, w);
    MovesOn(s, [CallHandler(w, true)], m1, [FireHook(w)], m2, w);
    MovesOn(s, [CallHandler(w, true)] + [FireHook(w)], m2, [Record(w)], m3, w);
    acts := [CallHandler(w, true)] + [FireHook(w)] + [Record(w)] + [FireHook(w)];
    MovesOn(s, [CallHandler(w, true)] + [FireHook(w)] + [Record(w)], m3, [FireHook(w)], t, w);
  }

  /** A call that fails, up to the verdict on it. */
  lemma FailSteps(s: State, w: nat) returns (acts: seq<Action>, t: State)
    requires Delivering(s, w) && s.stages[w].Invoke?
    ensures Moves(s, acts, t, w) && t.stages[w] == Judge(s.stages[w].attempt)
    ensures BooksOf(t, w) == FailedBooks(BooksOf(s, w), EnvOf(s, w), s.stages[w].attempt)
    ensures t.front.cancelled == s.front.cancelled
  {
    hide Steps, IsOwn, Count, RestStays;
    var m := CallStep(s, w, false);
    t := HookStep(m, w);
    acts := [CallHandler(w, false)] + [FireHook(w)];
    MovesOn(s, [CallHandler(w, false)], m, [FireHook(w)], t, w);
  }

  /** A failure judged once the context is cancelled. */
  lemma CutSteps(s: State, w: nat) returns (acts: seq<Action>, t: State)
    requires Delivering(s, w) && s.stages[w].Judge?
    ensures Moves(s, acts, t, w) && t.stages[w] == Over
    ensures var b := BooksOf(s, w); BooksOf(t, w) == b.(counters := Cut(b.counters))
  {
    hide Steps, IsOwn, RestStays;
    var m := CancelStep(s, w);
    t := DecideStep(m, w);
    acts := [Cancel] + [Decide(w)];
    MovesOn(s, [Cancel], m, [Decide(w)], t, w);
  }

  /** A failure that spent the budget. */
  lemma DeadSteps(s: State, w: nat) returns (acts: seq<Action>, t: State)
    requires Delivering(s, w) && s.stages[w].Judge? && s.stages[w].attempt >= s.maxAttempts && !s.front.cancelled
    ensures Moves(s, acts, t, w) && t.stages[w] == Over
    ensures BooksOf(t, w) == DeadBooks(BooksOf(s, w), EnvOf(s, w), s.stages[w].attempt)
  {
    hide Steps, IsOwn, Count, DeadBooks, Counted, RestStays;
    var m := DecideStep(s, w);
    t := HookStep(m, w);
    acts := [Decide(w)] + [FireHook(w)];
    MovesOn(s, [Decide(w)], m, [FireHook(w)], t, w);
  }

  /** A failure with budget left, up to the pause. */
  lemma PauseSteps(s: State, w: nat) returns (acts: seq<Action>, t: State)
    requires Delivering(s, w) && s.stages[w].Judge? && s.stages[w].attempt < s.maxAttempts && !s.front.cancelled
    ensures Moves(s, acts, t, w) && t.stages[w] == Delay(s.stages[w].attempt) && !t.front.cancelled
    ensures BooksOf(t, w) == Counted(BooksOf(s, w), RetryHook(s.stages[w].attempt))
  {
    hide Steps, IsOwn, Count, Counted, RestStays;
    var m := DecideStep(s, w);
    t := HookStep(m, w);
    acts := [Decide(w)] + [FireHook(w)];
    MovesOn(s, [Decide(w)], m, [FireHook(w)], t, w);
  }

  /** A pause cut short by cancellation. */
  lemma CutPauseSteps(s: State, w: nat) returns (acts: seq<Action>, t: State)
    requires Delivering(s, w) && s.stages[w].Delay?
    ensures Moves(s, acts, t, w) && t.stages[w] == Over
    ensures var b := BooksOf(s, w); BooksOf(t, w) == b.(counters := CutInDelay(b.counters))
  {
    hide Steps, IsOwn, RestStays;
    var m := CancelStep(s, w);
    t := WaitStep(m, w, true);
    acts := [Cancel] + [Wait(w, true)];
    MovesOn(s, [Cancel], m, [Wait(w, true)], t, w);
  }

  // ----------------------------------------------------------- a whole delivery

  lemma {:induction false} AttemptsRun(s: State, w: nat, fate: nat -> Attempt, n: nat)
    returns (acts: seq<Action>, t: State)
    requires Delivering(s, w) && s.stages[w] == Invoke(n) && 1 <= n <= s.maxAttempts && !s.front.cancelled
    ensures Moves(s, acts, t, w) && t.stages[w] == Over
    ensures BooksOf(t, w) == Delivered(BooksOf(s, w), EnvOf(s, w), fate, n, s.maxAttempts)
    decreases s.maxAttempts - n, 1
  {
    hide Steps, IsOwn, Delivered, WonBooks, FailedBooks, DeadBooks, Counted, RestStays, BooksOf;
    DeliveredStep(BooksOf(s, w), EnvOf(s, w), fate, n, s.maxAttempts);
    if fate(n).Succeeds? {
      acts, t := WinSteps(s, w);
    } else {
      var failed, m := FailSteps(s, w);
      var rest;
      if fate(n).FailsCancelled? {
        rest, t := CutSteps(m, w);
      } else if n == s.maxAttempts {
        rest, t := DeadSteps(m, w);
      } else {
        rest, t := PausedRun(m, w, fate, n);
      }
      acts := failed + rest;
      MovesOn(s, failed, m, rest, t, w);
    }
  }

  /** A failure with budget left and all that follows it. */
  lemma {:induction false} PausedRun(s: State, w: nat, fate: nat -> Attempt, n: nat)
    returns (acts: seq<Action>, t: State)
    requires Delivering(s, w) && s.stages[w] == Judge(n) && 1 <= n < s.maxAttempts && !s.front.cancelled
    requires fate(n).FailsThenCut? || fate(n).FailsUncut?
    ensures Moves(s, acts, t, w) && t.stages[w] == Over
    ensures var b := Counted(BooksOf(s, w), RetryHook(n));
      BooksOf(t, w) ==
        if fate(n).FailsThenCut? then b.(counters := CutInDelay(b.counters))
        else Delivered(b, EnvOf(s, w), fate, n + 1, s.maxAttempts)
    decreases s.maxAttempts - n, 0
  {
    hide Steps, IsOwn, Delivered, Counted, RestStays, BooksOf;
    var paused, k := PauseSteps(s, w);
    var more;
    if fate(n).FailsThenCut? {
      more, t := CutPauseSteps(k, w);
    } else {
      var next := WaitStep(k, w, false);
      var later;
      later, t := AttemptsRun(next, w, fate, n + 1);
      more := [Wait(w, false)] + later;
      MovesOn(k, [Wait(w, false)], next, later, t, w);
    }
    acts := paused + more;
    MovesOn(s, paused, k, more, t, w);
  }

  /** From the start of a delivery, for every fate of its attempts, there is a run of the
      worker's own steps, and of the cancellations the fate speaks of, to its end that leaves
      the log of the run, the completed events, the dead letters and the counters as Deliver
      does, and everything else alone. */
  lemma DeliverIsRun(s: State, w: nat, fate: nat -> Attempt) returns (acts: seq<Action>, t: State)
    requires Delivering(s, w) && s.stages[w] == Lookup && s.maxAttempts >= 1 && !s.front.cancelled
    ensures Moves(s, acts, t, w) && t.stages[w] == Over
    ensures EnvOf(s, w).eventId in s.guard.seen ==>
      t.hist == s.hist && BooksOf(t, w) == Counted(Counted(BooksOf(s, w), DupHook), DupAck)
    ensures EnvOf(s, w).eventId !in s.guard.seen ==>
      BooksOf(t, w) == Delivered(BooksOf(s, w), EnvOf(s, w), fate, 1, s.maxAttempts)
  {
    hide Steps, IsOwn, Counted, Delivered, RestStays, Attempts, Wins, Tally, Count;
    var m := FindStep(s, w);
    var rest;
    if EnvOf(s, w).eventId in s.guard.seen {
      var k := HookStep(m, w);
      t := HookStep(k, w);
      rest := [FireHook(w)] + [FireHook(w)];
      MovesOn(m, [FireHook(w)], k, [FireHook(w)], t, w);
    } else {
      rest, t := AttemptsRun(m, w, fate, 1);
    }
    acts := [FindDone(w)] + rest;
    MovesOn(s, [FindDone(w)], m, rest, t, w);
  }

  // ------------------------------------------------------------- the seen map

  /** The seen map of the object holds the keys of the completed events. */
  function KeysOf(consumerKey: string, events: set<string>): set<string> {
    set e | e in events :: DedupKey(consumerKey, e)
  }

  /** The object knows exactly the completed events, and recording one more event means
      the same in both. */
  lemma KeysAreEvents(consumerKey: string, events: set<string>, event: string)
    ensures DedupKey(consumerKey, event) in KeysOf(consumerKey, events) <==> event in events
    ensures KeysOf(consumerKey, events + {event}) == KeysOf(consumerKey, events) + {DedupKey(consumerKey, event)}
  {
    forall e ensures DedupKey(consumerKey, e) == DedupKey(consumerKey, event) <==> e == event {
      DedupKeyInjective(consumerKey, e, event);
    }
    hide DedupKey;
  }
}
