/** Session lifetime arithmetic shared by both copies of the session code. Instants
    are whole seconds since the epoch; the clock reading `now` is a parameter. */
module SessionTiming {

  const Hour: int := 3600
  const Day: int := 24 * Hour

  /** A session with less than this left is extended. */
  const ExtensionThreshold: int := 8 * Hour
  /** How far from now an extended session expires. */
  const ExtensionPeriod: int := 3 * Day
  /** How far from now a new session expires. */
  const InitialLifetime: int := 14 * Day

  /** `Session::is_expired`. */
  predicate IsExpired(expiry: int, now: int) {
    expiry < now
  }

  /** The expiry after `extend_if_expiring`: a session with fewer than eight hours
      left is pushed to three days from now, any other keeps its expiry. */
  function Extended(expiry: int, now: int): (e: int)
    ensures e >= expiry
    ensures e >= now + ExtensionThreshold
    ensures e == expiry || e == now + ExtensionPeriod
  {
    if expiry - ExtensionThreshold < now then now + ExtensionPeriod else expiry
  }

  /** The Redis time-to-live `Store::save` writes: the whole seconds until expiry,
      clamped at zero. */
  function Ttl(expiry: int, now: int): (ttl: nat)
    ensures ttl == 0 <==> expiry <= now
    ensures ttl > 0 ==> now + ttl == expiry
  {
    if expiry - now > 0 then expiry - now else 0
  }

  /** Exactly eight hours left is not "expiring": the expiry is kept. */
  lemma ExtendBoundary(now: int)
    ensures Extended(now + ExtensionThreshold, now) == now + ExtensionThreshold
    ensures Extended(now + ExtensionThreshold - 1, now) == now + ExtensionPeriod
  {
  }

  /** Extending twice at the same instant is extending once. */
  lemma ExtendIdempotent(expiry: int, now: int)
    ensures Extended(Extended(expiry, now), now) == Extended(expiry, now)
  {
  }

  /** An extended session is not expired and still has a positive time-to-live at
      any instant within the next eight hours. */
  lemma ExtendedStaysAlive(expiry: int, now: int, later: int)
    requires now <= later < now + ExtensionThreshold
    ensures !IsExpired(Extended(expiry, now), later)
    ensures Ttl(Extended(expiry, now), later) > 0
  {
  }

  /** A session that expired a second ago gets a zero time-to-live. */
  lemma TtlJustExpired(now: int)
    ensures Ttl(now - 1, now) == 0
  {
  }
}
