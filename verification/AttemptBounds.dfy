// The bounds on delivery attempts that the transports and the dead letters share.

module AttemptBounds {
  const DEFAULT_MAX_ATTEMPTS: nat := 5
  const MAX_ATTEMPTS_CAP: nat := 32

  /** The retry budget in force: a configured one from 1 to 32 as it is. */
  function NormalizedAttempts(n: int): (k: nat)
    ensures 1 <= n <= 32 ==> k == n
    ensures n > 32 ==> k == 32
    ensures n <= 0 ==> k == 5
  {
    if n <= 0 then DEFAULT_MAX_ATTEMPTS else if n > MAX_ATTEMPTS_CAP then MAX_ATTEMPTS_CAP else n
  }
}
