/** Shared notions: optional values and the broker's two clock resolutions. */
module Base {

  datatype Option<+T> = None | Some(value: T)

  /** What `time.Now()` returns: nanoseconds since the Unix epoch. */
  type Instant = int

  /** A whole second, as the `*_at` columns store it. */
  type Seconds = int

  /** `t.Unix()`: the whole second an instant falls in. */
  function Unix(t: Instant): Seconds {
    t / 1_000_000_000
  }

  /** `time.Unix(s, 0)`: the first instant of a whole second. */
  function StartOf(s: Seconds): Instant {
    s * 1_000_000_000
  }

  /** `now.After(time.Unix(expiresAt, 0))`, the test every handler uses for expiry. */
  predicate Expired(now: Instant, expiresAt: Seconds) {
    now > StartOf(expiresAt)
  }

  /** `expires_at < now.Unix()`, the test the DELETE statements use. */
  predicate Collectable(now: Instant, expiresAt: Seconds) {
    expiresAt < Unix(now)
  }

  /**
   * A row the cleanup may delete has already been refused by every handler for at
   * least one second, and stays refused: the whole-second rounding of the two tests
   * never lets cleanup take a row that a handler would still accept.
   */
  lemma CollectableIsExpired(now: Instant, later: Instant, expiresAt: Seconds)
    requires Collectable(now, expiresAt)
    requires now <= later
    ensures Expired(later, expiresAt)
    ensures Expired(now - 999_999_999, expiresAt)
    ensures Collectable(later, expiresAt)
  {
  }

  /** The gap in the other direction is real, and is less than a second. */
  lemma ExpiredIsSoonCollectable(now: Instant, expiresAt: Seconds)
    ensures Expired(now, expiresAt) && !Collectable(now, expiresAt) <==>
              StartOf(expiresAt) < now < StartOf(expiresAt + 1)
  {
  }

  /**
   * Rounding the expiry down to a whole second shortens a token's life by less than
   * a second: the last instant that still passes the expiry test lies in
   * (issued + ttl - 1 s, issued + ttl].
   */
  lemma LastAcceptedInstant(issued: Instant, ttl: int, t: Instant)
    ensures issued + ttl - 1_000_000_000 < StartOf(Unix(issued + ttl)) <= issued + ttl
    ensures t <= issued + ttl - 1_000_000_000 ==> !Expired(t, Unix(issued + ttl))
    ensures t > issued + ttl ==> Expired(t, Unix(issued + ttl))
  {
  }
}
