// The counter set that the hooks feed, as the object it is.

module MetricsHooks {
  import opened MemoryModel
  import opened MemoryMetrics

  datatype Outcome = Ok | Duplicate | Failure | Error

  class HookCounters {
    var published: nat
    var publishFailed: nat
    var consumed: nat
    var duplicates: nat
    var consumeFailed: nat
    var acked: nat
    var ackFailed: nat
    var failed: nat
    var retried: nat
    var dead: nat
    var pending: int

    /** The counts of the bus model; returns and cuts are not counted by any hook. */
    function Counts(): Counters
      reads this
    {
      Counters(published, publishFailed, consumed, duplicates, consumeFailed, acked, retried, dead, 0, 0, 0)
    }

    /** Every failure is counted once in its own series and once in the total, and only
        consumed messages are duplicates or failures. */
    ghost predicate Valid()
      reads this
    {
      failed == publishFailed + consumeFailed + ackFailed && consumed >= duplicates + consumeFailed
    }

    constructor ()
      ensures Valid() && Counts() == Counters(0, 0, 0, 0, 0, 0, 0, 0, 0, 0, 0)
      ensures published == publishFailed == consumed == duplicates == consumeFailed == 0
      ensures acked == ackFailed == failed == retried == dead == 0 && pending == 0
    {
      published, publishFailed, consumed, duplicates, consumeFailed := 0, 0, 0, 0, 0;
      acked, ackFailed, failed, retried, dead, pending := 0, 0, 0, 0, 0, 0;
    }

    method OnPublish(outcome: Outcome, hasError: bool)
      requires Valid()
      modifies this`published, this`publishFailed, this`failed
      ensures Valid()
      ensures outcome.Ok? && !hasError ==>
        published == old(published) + 1 && publishFailed == old(publishFailed) && failed == old(failed)
      ensures !outcome.Ok? || hasError ==>
        published == old(published) && publishFailed == old(publishFailed) + 1 && failed == old(failed) + 1
    {
      if outcome.Ok? && !hasError {
        published := published + 1;
        return;
      }
      publishFailed := publishFailed + 1;
      failed := failed + 1;
    }

    method OnConsume(outcome: Outcome)
      requires Valid()
      modifies this`consumed, this`duplicates, this`failed, this`consumeFailed
      ensures Valid()
      ensures Counts() == Count(old(Counts()),
        match outcome
        case Ok => OkHook(1)
        case Duplicate => DupHook
        case Failure => FailHook(1)
        case Error => FailHook(1))
      ensures consumed == old(consumed) + 1
      ensures duplicates == old(duplicates) + if outcome.Duplicate? then 1 else 0
      ensures var failure := outcome.Failure? || outcome.Error?;
        && consumeFailed == old(consumeFailed) + (if failure then 1 else 0)
        && failed == old(failed) + if failure then 1 else 0
    {
      consumed := consumed + 1;
      match outcome
      case Ok =>
      case Duplicate => duplicates := duplicates + 1;
      case Failure => failed, consumeFailed := failed + 1, consumeFailed + 1;
      case Error => failed, consumeFailed := failed + 1, consumeFailed + 1;
    }

    method OnAck(outcome: Outcome)
      requires Valid()
      modifies this`acked, this`failed, this`ackFailed
      ensures Valid()
      ensures outcome.Ok? ==> Counts() == Count(old(Counts()), AckHook(1))
      ensures outcome.Ok? ==>
        acked == old(acked) + 1 && ackFailed == old(ackFailed) && failed == old(failed)
      ensures !outcome.Ok? ==>
        acked == old(acked) && ackFailed == old(ackFailed) + 1 && failed == old(failed) + 1
    {
      if outcome.Ok? {
        acked := acked + 1;
      } else {
        failed, ackFailed := failed + 1, ackFailed + 1;
      }
    }

    method OnRetry()
      requires Valid()
      modifies this`retried
      ensures Valid() && Counts() == Count(old(Counts()), RetryHook(1)) && retried == old(retried) + 1
    {
      retried := retried + 1;
    }

    method OnDLQ()
      requires Valid()
      modifies this`dead
      ensures Valid() && Counts() == Count(old(Counts()), DeadHook) && dead == old(dead) + 1
    {
      dead := dead + 1;
    }

    method OnPending(count: int)
      requires Valid()
      modifies this`pending
      ensures Valid() && pending == count && Counts() == old(Counts())
    {
      pending := count;
    }

    /** The ok value that Prometheus derives: the clamp at zero never acts on a state the
        hooks can produce. */
    method DerivedOk() returns (ok: int)
      requires Valid()
      ensures ok == OkSeries(Counts()) == consumed - duplicates - consumeFailed
    {
      ok := consumed - duplicates - consumeFailed;
      if ok < 0 {
        ok := 0;
      }
    }
  }
}
