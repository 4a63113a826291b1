// The in-memory transport in its own form: an object whose queue, seen map, DLQ and
// flags are updated in place, with the delivery loop as a loop.  The loop, run without
// interference, is proved to produce exactly the blocks of the trace theorem.

module MemoryBuses {
  import opened AttemptBounds
  import opened Identity
  import opened MemoryModel
  import opened MemorySafety
  import opened MemoryTrace

  const MAX_INJECTED_DUPLICATES: nat := 64

  /** What befalls one handler attempt: it succeeds; it fails; it fails and the context
      is cancelled by then; it fails and the pause that follows is cut short. */
  datatype Attempt = Succeeds | FailsUncut | FailsCancelled | FailsThenCut

  /** The entries of a delivery from attempt n on. */
  function Attempts(event: string, fate: nat -> Attempt, n: nat, max: nat): (log: seq<Entry>)
    requires 1 <= n <= max
    decreases max - n
  {
    match fate(n)
    case Succeeds => [Tried(event, n, true)]
    case FailsCancelled => [Tried(event, n, false)]
    case FailsUncut =>
      if n == max then [Tried(event, n, false), Dead(event, n)]
      else [Tried(event, n, false)] + Attempts(event, fate, n + 1, max)
    case FailsThenCut =>
      if n == max then [Tried(event, n, false), Dead(event, n)] else [Tried(event, n, false)]
  }

  /** Whether the delivery succeeds in the end. */
  predicate Wins(fate: nat -> Attempt, n: nat, max: nat)
    requires 1 <= n <= max
    decreases max - n
  {
    fate(n).Succeeds? || (fate(n).FailsUncut? && n < max && Wins(fate, n + 1, max))
  }

  /** The counters after the attempts from n on. */
  function Tally(c: Counters, fate: nat -> Attempt, n: nat, max: nat): Counters
    requires 1 <= n <= max
    decreases max - n
  {
    match fate(n)
    case Succeeds => Count(Count(c, OkHook(n)), AckHook(n))
    case FailsCancelled => Cut(Count(c, FailHook(n)))
    case FailsUncut =>
      if n == max then Count(Count(c, FailHook(n)), DeadHook)
      else Tally(Count(Count(c, FailHook(n)), RetryHook(n)), fate, n + 1, max)
    case FailsThenCut =>
      if n == max then Count(Count(c, FailHook(n)), DeadHook)
      else CutInDelay(Count(Count(c, FailHook(n)), RetryHook(n)))
  }

  lemma {:induction false} TallyReturned(c: Counters, fate: nat -> Attempt, n: nat, max: nat)
    requires 1 <= n <= max
    ensures Tally(c, fate, n, max).returned == c.returned
    decreases max - n
  {
    if fate(n).FailsUncut? && n < max {
      TallyReturned(Count(Count(c, FailHook(n)), RetryHook(n)), fate, n + 1, max);
    }
  }

  function Cut(c: Counters): Counters {
    c.(cutAfterFailure := c.cutAfterFailure + 1)
  }

  function CutInDelay(c: Counters): Counters {
    c.(cutInDelay := c.cutInDelay + 1)
  }

  /** From attempt n on the handler is called up to the first attempt k that does not fail
      uncut, or up to the last.  Every call is logged, as a success only if it is k and k
      succeeds; a dead letter follows exactly when the last attempt failed uncancelled.  Each
      call is consumed, each failed one counted and, with budget left and no cancellation,
      retried; the end is one ack, one dead letter or one cut. */
  lemma {:induction false} AttemptsFrom(event: string, fate: nat -> Attempt, n: nat, max: nat, c: Counters)
    returns (k: nat)
    requires 1 <= n <= max
    ensures n <= k <= max && (forall i :: n <= i < k ==> fate(i).FailsUncut?) && (k == max || !fate(k).FailsUncut?)
    ensures var dead := k == max && (fate(k).FailsUncut? || fate(k).FailsThenCut?);
      var entries := Attempts(event, fate, n, max);
      && |entries| == k + 1 - n + (if dead then 1 else 0)
      && (forall i :: 0 <= i <= k - n ==> entries[i] == Tried(event, n + i, n + i == k && fate(k).Succeeds?))
      && (dead ==> entries[k + 1 - n] == Dead(event, max))
    ensures Wins(fate, n, max) <==> fate(k).Succeeds?
    ensures var t := Tally(c, fate, n, max);
      var calls := k + 1 - n;
      var won, cancelled := fate(k).Succeeds?, fate(k).FailsCancelled?;
      var dead, cut := k == max && !won && !cancelled, k < max && fate(k).FailsThenCut?;
      && t.published == c.published && t.publishFailed == c.publishFailed && t.returned == c.returned
      && t.consumed == c.consumed + calls && t.duplicates == c.duplicates
      && t.consumeFailed == c.consumeFailed + calls - (if won then 1 else 0)
      && t.retried == c.retried + calls - (if cut then 0 else 1)
      && t.acked == c.acked + (if won then 1 else 0) && t.dead == c.dead + (if dead then 1 else 0)
      && t.cutAfterFailure == c.cutAfterFailure + (if cancelled then 1 else 0)
      && t.cutInDelay == c.cutInDelay + if cut then 1 else 0
    decreases max - n
  {
    if fate(n).FailsUncut? && n < max {
      k := AttemptsFrom(event, fate, n + 1, max, Count(Count(c, FailHook(n)), RetryHook(n)));
      var later := Attempts(event, fate, n + 1, max);
      var entries := Attempts(event, fate, n, max);
      assert entries == [Tried(event, n, false)] + later;
      assert forall i :: 1 <= i < |entries| ==> entries[i] == later[i - 1];
    } else {
      k := n;
    }
  }

  /** A failure with budget left, and the attempts after it. */
  lemma GoesOn(event: string, fate: nat -> Attempt, n: nat, max: nat, c: Counters)
    requires 1 <= n < max && fate(n).FailsUncut?
    ensures Attempts(event, fate, n, max) == [Tried(event, n, false)] + Attempts(event, fate, n + 1, max)
    ensures Wins(fate, n, max) == Wins(fate, n + 1, max)
    ensures Tally(c, fate, n, max) == Tally(Count(Count(c, FailHook(n)), RetryHook(n)), fate, n + 1, max)
  {
  }

  /** How an attempt that ends the delivery ends it. */
  lemma EndsHere(fate: nat -> Attempt, n: nat, max: nat)
    requires 1 <= n <= max && !(fate(n).FailsUncut? && n < max)
    ensures Wins(fate, n, max) <==> fate(n).Succeeds?
  {
  }

  /** Uninterrupted, the entries are one block: attempts 1, 2, ... up to the first
      success, or all max of them and a dead letter. */
  lemma {:induction false} AttemptsMakeBlock(event: string, fate: nat -> Attempt, n: nat, max: nat)
    requires 1 <= n <= max
    requires forall k :: n <= k <= max ==> fate(k).Succeeds? || fate(k).FailsUncut?
    ensures Wins(fate, n, max) ==>
      exists m :: n <= m <= max && Fails(event, n - 1) + Attempts(event, fate, n, max) ==
        Fails(event, m - 1) + [Tried(event, m, true)]
    ensures !Wins(fate, n, max) ==>
      Fails(event, n - 1) + Attempts(event, fate, n, max) == Fails(event, max) + [Dead(event, max)]
    decreases max - n
  {
    if fate(n).FailsUncut? {
      OneMoreFails(event, n, if n < max then Attempts(event, fate, n + 1, max) else [Dead(event, n)]);
      hide Fails;
      if n < max {
        AttemptsMakeBlock(event, fate, n + 1, max);
      } else {
        assert [Tried(event, n, false)] + [Dead(event, n)] == [Tried(event, n, false), Dead(event, n)];
      }
    } else {
      hide Fails;
      assert fate(n).Succeeds?;
      assert Fails(event, n - 1) + Attempts(event, fate, n, max) == Fails(event, n - 1) + [Tried(event, n, true)];
    }
  }

  lemma OneMoreFails(event: string, n: nat, rest: seq<Entry>)
    requires n >= 1
    ensures Fails(event, n - 1) + ([Tried(event, n, false)] + rest) == Fails(event, n) + rest
  {
    assert Fails(event, n) == Fails(event, n - 1) + [Tried(event, n, false)];
    hide Fails;
    assert Fails(event, n - 1) + ([Tried(event, n, false)] + rest)
        == (Fails(event, n - 1) + [Tried(event, n, false)]) + rest;
  }

  /** So the delivery loop, uninterrupted, adds one block of the trace theorem. */
  lemma DeliveryIsBlock(prior: seq<Entry>, event: string, fate: nat -> Attempt, max: nat)
    requires max >= 1 && !Succeeded(prior, event)
    requires forall k :: 1 <= k <= max ==> fate(k).Succeeds? || fate(k).FailsUncut?
    ensures IsBlock(prior, Attempts(event, fate, 1, max), event, max)
  {
    AttemptsMakeBlock(event, fate, 1, max);
    assert Fails(event, 0) + Attempts(event, fate, 1, max) == Attempts(event, fate, 1, max);
  }

  /** The key of the seen map. */
  function DedupKey(consumerKey: string, eventId: string): string {
    consumerKey + [0 as char] + eventId
  }

  lemma DedupKeyInjective(consumerKey: string, a: string, b: string)
    ensures DedupKey(consumerKey, a) == DedupKey(consumerKey, b) <==> a == b
  {
    var n := |consumerKey| + 1;
    assert DedupKey(consumerKey, a)[n..] == a && DedupKey(consumerKey, b)[n..] == b;
  }

  datatype CopyResult = Copied(n: nat) | Saturated | Negative | TooMany

  datatype PublishOutcome = Queued | Rejected | Closed

  /** The injector's first refusal is at copy n. */
  ghost predicate FirstRefusal(inject: (Envelope, nat) -> bool, env: Envelope, n: nat) {
    1 <= n <= MAX_INJECTED_DUPLICATES && !inject(env, n) && forall k :: 1 <= k < n ==> inject(env, k)
  }

  /** The injector refuses none of the copies it may be asked for. */
  ghost predicate NeverRefuses(inject: (Envelope, nat) -> bool, env: Envelope) {
    forall k :: 1 <= k <= MAX_INJECTED_DUPLICATES ==> inject(env, k)
  }

  /** A publication makes n deliveries. */
  ghost predicate Makes(env: Envelope, duplicates: int, inject: Option<(Envelope, nat) -> bool>, n: nat) {
    match inject
    case Some(f) => FirstRefusal(f, env, n)
    case None => 0 <= duplicates <= MAX_INJECTED_DUPLICATES && n == duplicates + 1
  }

  /** The dead letter a log entry stands for. */
  function LetterFor(env: Envelope, entry: Entry): seq<DeadLetter> {
    if entry.Dead? then [DeadLetter(env.eventId, env.runId, entry.attempt)] else []
  }

  /** The counters balance, with this many deliveries answered but not yet returned. */
  predicate Balance(c: Counters, open: nat) {
    && c.consumed == c.acked + c.retried + c.dead + c.cutAfterFailure
    && c.consumeFailed == c.retried + c.dead + c.cutAfterFailure
    && c.acked + c.dead + c.cutAfterFailure + c.cutInDelay == c.returned + open
  }

  class MemoryBus {
    const maxAttempts: nat
    const consumerKey: string
    var pending: seq<Envelope>
    var seen: set<string>
    var dlq: seq<DeadLetter>
    var closed: bool
    var running: bool
    var counters: Counters
    ghost var log: seq<Entry>

    constructor (maxAttempts: int, consumerKey: string)
      ensures this.consumerKey == consumerKey
      ensures this.maxAttempts == if maxAttempts <= 0 then 5 else if maxAttempts > 32 then 32 else maxAttempts
      ensures pending == [] && seen == {} && dlq == [] && !closed && !running && log == []
      ensures counters == Counters(0, 0, 0, 0, 0, 0, 0, 0, 0, 0, 0)
      ensures Balance(counters, 0)
    {
      this.maxAttempts := NormalizedAttempts(maxAttempts);
      this.consumerKey := consumerKey;
      pending, seen, dlq, closed, running := [], {}, [], false, false;
      counters := Counters(0, 0, 0, 0, 0, 0, 0, 0, 0, 0, 0);
      log := [];
    }

    predicate Known(event: string)
      reads this`seen
    {
      DedupKey(consumerKey, event) in seen
    }

    /** How many deliveries one publication makes.  An injector is asked for copy 1, 2,
        ... and stops the count at its first refusal. */
    method DuplicateCopies(env: Envelope, duplicates: int, inject: Option<(Envelope, nat) -> bool>)
      returns (r: CopyResult)
      ensures forall n :: Makes(env, duplicates, inject, n) <==> r == Copied(n)
      ensures inject.Some? ==> (r == Saturated <==> NeverRefuses(inject.value, env))
      ensures inject.Some? ==>
        || (r == Saturated && forall k :: 1 <= k <= 64 ==> inject.value(env, k))
        || (r.Copied? && 1 <= r.n <= 64 && !inject.value(env, r.n) && forall k :: 1 <= k < r.n ==> inject.value(env, k))
      ensures inject.None? ==>
        r == if duplicates < 0 then Negative else if duplicates > 64 then TooMany else Copied(duplicates + 1)
    {
      match inject {
        case Some(f) =>
          var extra := 0;
          for index := 1 to MAX_INJECTED_DUPLICATES + 1
            invariant extra == index - 1
            invariant forall k :: 1 <= k < index ==> f(env, k)
          {
            if !f(env, index) {
              return Copied(extra + 1);
            }
            extra := extra + 1;
          }
          r := Saturated;
        case None =>
          if duplicates < 0 {
            r := Negative;
          } else if duplicates > MAX_INJECTED_DUPLICATES {
            r := TooMany;
          } else {
            r := Copied(duplicates + 1);
          }
      }
    }

    /** Publish.  gate is the verdict of ValidateForPublish, ctxDone whether the caller's
        context had ended.  Nothing is queued unless all copies are. */
    method Publish(env: Envelope, gate: bool, ctxDone: bool, duplicates: int, inject: Option<(Envelope, nat) -> bool>)
      returns (outcome: PublishOutcome)
      modifies this`pending, this`counters
      ensures outcome.Queued? <==>
        gate && !ctxDone && !old(closed) && exists n :: Makes(env, duplicates, inject, n)
      ensures outcome.Queued? ==>
        && (forall n: nat :: Makes(env, duplicates, inject, n) ==> pending == old(pending) + seq(n, _ => env))
        && counters == old(counters).(published := old(counters).published + 1)
      ensures !outcome.Queued? ==>
        pending == old(pending) && counters == old(counters).(publishFailed := old(counters).publishFailed + 1)
      ensures outcome.Closed? <==>
        gate && !ctxDone && old(closed) && exists n :: Makes(env, duplicates, inject, n)
    {
      if ctxDone || !gate {
        counters := counters.(publishFailed := counters.publishFailed + 1);
        return Rejected;
      }
      var copies := DuplicateCopies(env, duplicates, inject);
      if !copies.Copied? {
        counters := counters.(publishFailed := counters.publishFailed + 1);
        return Rejected;
      }
      if closed {
        counters := counters.(publishFailed := counters.publishFailed + 1);
        return Closed;
      }
      var i := 0;
      while i < copies.n
        invariant 0 <= i <= copies.n && pending == old(pending) + Copies(env, i) && counters == old(counters)
      {
        pending := pending + [env];
        i := i + 1;
      }
      counters := counters.(published := counters.published + 1);
      outcome := Queued;
    }

    /** The pump's locked region: pops the head of the FIFO. */
    method Pop() returns (next: Option<Envelope>)
      modifies this`pending
      ensures closed || old(pending) == [] ==> next == None && pending == old(pending)
      ensures !closed && old(pending) != [] ==> next.Some? && old(pending) == [next.value] + pending
    {
      if closed || |pending| == 0 {
        return None;
      }
      next := Some(pending[0]);
      pending := pending[1..];
    }

    method Close()
      modifies this`closed, this`pending
      ensures closed && (!old(closed) ==> pending == []) && (old(closed) ==> pending == old(pending))
    {
      if !closed {
        closed := true;
        pending := [];
      }
    }

    /** Nack: a retry while budget remains, a dead letter and nothing else after it. */
    method Nack(env: Envelope, attempt: nat) returns (stage: Stage)
      modifies this`dlq, this`counters, this`log
      ensures attempt < maxAttempts ==>
        && stage == Delay(attempt) && dlq == old(dlq) && log == old(log)
        && counters == old(counters).(retried := old(counters).retried + 1)
      ensures attempt >= maxAttempts ==>
        && stage == Over && dlq == old(dlq) + [DeadLetter(env.eventId, env.runId, attempt)]
        && log == old(log) + [Dead(env.eventId, attempt)]
        && counters == old(counters).(dead := old(counters).dead + 1)
    {
      if attempt >= maxAttempts {
        dlq := dlq + [DeadLetter(env.eventId, env.runId, attempt)];
        log := log + [Dead(env.eventId, attempt)];
        counters := Count(counters, DeadHook);
        return Over;
      }
      counters := Count(counters, RetryHook(attempt));
      stage := Delay(attempt);
    }

    /** One turn of the delivery loop: an attempt and, after a failure, Nack and the
        pause.  It goes on exactly after a failure with budget left and no interruption. */
    method Round(env: Envelope, fate: nat -> Attempt, attempt: nat) returns (live: bool)
      requires 1 <= attempt <= maxAttempts && !Known(env.eventId)
      modifies this`seen, this`dlq, this`counters, this`log
      ensures live <==> fate(attempt).FailsUncut? && attempt < maxAttempts
      ensures live ==> seen == old(seen) && dlq == old(dlq) && log == old(log) + [Tried(env.eventId, attempt, false)]
      ensures !live ==> log == old(log) + Attempts(env.eventId, fate, attempt, maxAttempts)
      ensures seen == old(seen) + if fate(attempt).Succeeds? then {DedupKey(consumerKey, env.eventId)} else {}
      ensures !live ==> dlq == old(dlq) + LetterFor(env, log[|log| - 1])
      ensures counters ==
        if live then Count(Count(old(counters), FailHook(attempt)), RetryHook(attempt))
        else Tally(old(counters), fate, attempt, maxAttempts)
      ensures Balance(old(counters), 0) ==> Balance(counters, if live then 0 else 1)
    {
      if fate(attempt).Succeeds? {
        log := log + [Tried(env.eventId, attempt, true)];
        counters := Count(counters, OkHook(attempt));
        seen := seen + {DedupKey(consumerKey, env.eventId)};
        counters := Count(counters, AckHook(attempt));
        return false;
      }
      log := log + [Tried(env.eventId, attempt, false)];
      counters := Count(counters, FailHook(attempt));
      if fate(attempt).FailsCancelled? {
        counters := Cut(counters);
        return false;
      }
      var stage := Nack(env, attempt);
      if attempt >= maxAttempts {
        return false;
      }
      if fate(attempt).FailsThenCut? {
        counters := CutInDelay(counters);
        return false;
      }
      live := true;
    }

    /** The delivery loop, for an event that is not known. */
    method Attempt(env: Envelope, fate: nat -> Attempt)
      requires maxAttempts >= 1 && !Known(env.eventId)
      modifies this`seen, this`dlq, this`counters, this`log
      ensures log == old(log) + Attempts(env.eventId, fate, 1, maxAttempts)
      ensures seen == old(seen) + if Wins(fate, 1, maxAttempts) then {DedupKey(consumerKey, env.eventId)} else {}
      ensures dlq == old(dlq) + LetterFor(env, log[|log| - 1])
      ensures counters == Tally(old(counters), fate, 1, maxAttempts)
      ensures Balance(old(counters), 0) ==> Balance(counters, 1)
    {
      hide Attempts, Wins, Tally, Count, Balance, DedupKey, LetterFor;
      var attempt := 1;
      ghost var before, after := log, log + Attempts(env.eventId, fate, 1, maxAttempts);
      while true
        invariant 1 <= attempt <= maxAttempts && !Known(env.eventId)
        invariant seen == old(seen) && dlq == old(dlq)
        invariant log + Attempts(env.eventId, fate, attempt, maxAttempts) == after
        invariant Wins(fate, attempt, maxAttempts) <==> Wins(fate, 1, maxAttempts)
        invariant Tally(counters, fate, attempt, maxAttempts) == Tally(old(counters), fate, 1, maxAttempts)
        invariant Balance(old(counters), 0) ==> Balance(counters, 0)
        decreases maxAttempts - attempt
      {
        before := log;
        if fate(attempt).FailsUncut? && attempt < maxAttempts {
          GoesOn(env.eventId, fate, attempt, maxAttempts, counters);
        } else {
          EndsHere(fate, attempt, maxAttempts);
        }
        var live := Round(env, fate, attempt);
        if !live {
          return;
        }
        assert before + [Tried(env.eventId, attempt, false)] + Attempts(env.eventId, fate, attempt + 1, maxAttempts)
            == before + ([Tried(env.eventId, attempt, false)] + Attempts(env.eventId, fate, attempt + 1, maxAttempts));
        attempt := attempt + 1;
      }
    }

    /** deliver: one delivery run to completion.  fate says what befalls each attempt.
        A known event is acked untouched; otherwise the log grows by exactly the attempts
        fate leads to, the event becomes known exactly when one succeeded, and a dead
        letter is written exactly when the last entry is one. */
    method Deliver(env: Envelope, fate: nat -> Attempt)
      requires maxAttempts >= 1
      modifies this`seen, this`dlq, this`counters, this`log
      ensures old(Known(env.eventId)) ==>
        && log == old(log) && dlq == old(dlq) && seen == old(seen)
        && counters == old(counters).(consumed := old(counters).consumed + 1,
             duplicates := old(counters).duplicates + 1, acked := old(counters).acked + 1,
             returned := old(counters).returned + 1)
      ensures !old(Known(env.eventId)) ==>
        && log == old(log) + Attempts(env.eventId, fate, 1, maxAttempts)
        && seen == old(seen)
             + (if Wins(fate, 1, maxAttempts) then {consumerKey + [0 as char] + env.eventId} else {})
        && dlq == old(dlq)
             + (if log[|log| - 1].Dead? then [DeadLetter(env.eventId, env.runId, log[|log| - 1].attempt)] else [])
        && counters == Tally(old(counters), fate, 1, maxAttempts).(returned := old(counters).returned + 1)
      ensures Balance(old(counters), 0) ==> Balance(counters, 0)
    {
      if Known(env.eventId) {
        counters := Count(Count(counters, DupHook), DupAck);
        counters := counters.(returned := counters.returned + 1);
        return;
      }
      TallyReturned(counters, fate, 1, maxAttempts);
      Attempt(env, fate);
      counters := counters.(returned := counters.returned + 1);
    }
  }
}
