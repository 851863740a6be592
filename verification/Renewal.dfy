/** The certificate manager of internal/tlscert, with issuance as an oracle. */
module Renewal {
  import opened Base

  const HOUR := 3_600_000_000_000
  const RENEW_BEFORE := 30 * 24 * HOUR
  const CHECK_INTERVAL := 12 * HOUR

  datatype Cert = Cert(serial: int, notAfter: Instant)

  predicate NeedsRenewal(cert: Cert, now: Instant) {
    cert.notAfter - now < RENEW_BEFORE
  }

  /** When the ticker fires for the `k`-th time. */
  function TickTime(started: Instant, k: int): Instant {
    started + k * CHECK_INTERVAL
  }

  /** The certificate in service once the first `ticks` ticks are dealt with. */
  function CertAfter(initial: Option<Cert>, started: Instant, obtain: nat -> Option<Cert>, ticks: nat): Option<Cert>
    decreases ticks, 1
  {
    if ticks == 0 then initial
    else if Attempts(initial, started, obtain, ticks) && obtain(ticks).Some? then obtain(ticks)
    else CertAfter(initial, started, obtain, ticks - 1)
  }

  /** Whether the `k`-th tick asks for a new certificate. */
  predicate Attempts(initial: Option<Cert>, started: Instant, obtain: nat -> Option<Cert>, k: nat)
    requires k >= 1
    decreases k, 0
  {
    var held := CertAfter(initial, started, obtain, k - 1);
    held.None? || NeedsRenewal(held.value, TickTime(started, k))
  }

  class Manager {
    var cert: Option<Cert>

    constructor ()
      ensures cert == None
    {
      cert := None;
    }

    method Start(dirMade: bool, cached: Option<Cert>, obtained: Option<Cert>, now: Instant) returns (ok: bool)
      modifies this
      ensures ok ==> cert.Some?
      ensures ok <==> dirMade && ((cached.Some? && !NeedsRenewal(cached.value, now)) || obtained.Some?)
      ensures ok && cert != obtained ==> cert == cached && !NeedsRenewal(cert.value, now)
      ensures ok && cached.Some? && !NeedsRenewal(cached.value, now) ==> cert == cached
      ensures !ok ==> cert == old(cert)
      ensures ok <==>
                dirMade && (obtained.Some? || (cached.Some? && cached.value.notAfter - now >= 2_592_000_000_000_000))
      ensures ok ==> cert == if cached.Some? && cached.value.notAfter - now >= 2_592_000_000_000_000 then cached
                             else obtained
    {
      if !dirMade {
        return false;
      }
      if cached.Some? && !NeedsRenewal(cached.value, now) {
        cert := cached;
      } else if obtained.Some? {
        cert := obtained;
      } else {
        return false;
      }
      return true;
    }

    method RenewLoop(started: Instant, obtain: nat -> Option<Cert>, ticks: nat)
      modifies this
      ensures cert == CertAfter(old(cert), started, obtain, ticks)
    {
      for k := 0 to ticks
        invariant cert == CertAfter(old(cert), started, obtain, k)
      {
        var now := TickTime(started, k + 1);
        if cert.Some? && !NeedsRenewal(cert.value, now) {
          continue;
        }
        var renewed := obtain(k + 1);
        if renewed.Some? {
          cert := renewed;
        }
      }
    }

    method GetCertificate() returns (served: Option<Cert>)
      ensures served == cert
    {
      served := cert;
    }
  }

  /**
   * One more tick, twelve hours after the last: without a certificate, or with one that has
   * less than thirty days left, another is asked for, and kept if it comes.
   */
  lemma OneMoreTick(initial: Option<Cert>, started: Instant, obtain: nat -> Option<Cert>, ticks: nat)
    ensures CertAfter(initial, started, obtain, 0) == initial
    ensures var held := CertAfter(initial, started, obtain, ticks);
            var now := started + (ticks + 1) * 43_200_000_000_000;
            CertAfter(initial, started, obtain, ticks + 1)
            == if (held.None? || held.value.notAfter - now < 2_592_000_000_000_000) && obtain(ticks + 1).Some?
               then obtain(ticks + 1) else held
  {
  }

  /** Once there is a certificate there always is one. */
  lemma {:induction false} AlwaysServes(initial: Option<Cert>, started: Instant, obtain: nat -> Option<Cert>,
                                        ticks: nat)
    requires initial.Some?
    ensures CertAfter(initial, started, obtain, ticks).Some?
  {
    if ticks > 0 {
      AlwaysServes(initial, started, obtain, ticks - 1);
    }
  }

  // ----- when the certificate in service has expired

  /** Every issued certificate is good for the renewal window when it is issued. */
  ghost predicate IssuesLong(started: Instant, obtain: nat -> Option<Cert>) {
    forall k: nat :: obtain(k).Some? ==> obtain(k).value.notAfter >= TickTime(started, k) + RENEW_BEFORE
  }

  /** Issuance started at one tick ends before the next. */
  ghost predicate EndsBeforeNextTick(took: nat -> int) {
    forall k: nat :: 0 <= took(k) < CHECK_INTERVAL
  }

  /** At `at` the outcomes of exactly the first `ticks` ticks are in. */
  ghost predicate InForce(started: Instant, took: nat -> int, ticks: nat, at: Instant) {
    && (ticks == 0 || TickTime(started, ticks) + took(ticks) <= at)
    && at < TickTime(started, ticks + 1) + took(ticks + 1)
  }

  predicate InWindow(cert: Cert, started: Instant, k: int) {
    cert.notAfter - RENEW_BEFORE < TickTime(started, k) <= cert.notAfter
  }

  /** The last tick before the window opens. */
  function BeforeWindow(cert: Cert, started: Instant): int {
    (cert.notAfter - RENEW_BEFORE - started) / CHECK_INTERVAL
  }

  /** The window spans sixty ticks, neither more nor fewer. */
  lemma SixtyTicks(cert: Cert, started: Instant, k: int)
    ensures InWindow(cert, started, k) <==>
              BeforeWindow(cert, started) < k <= BeforeWindow(cert, started) + 60
  {
    assert RENEW_BEFORE == 60 * CHECK_INTERVAL;
  }

  /**
   * The certificate in service was in service all through the window so far,
   * and no attempt in that time brought another.
   */
  lemma {:induction false} HeldSince(initial: Option<Cert>, started: Instant, obtain: nat -> Option<Cert>,
                                     ticks: nat, cert: Cert, k: nat)
    requires IssuesLong(started, obtain)
    requires CertAfter(initial, started, obtain, ticks) == Some(cert)
    requires k <= ticks && cert.notAfter - RENEW_BEFORE < TickTime(started, k + 1)
    ensures CertAfter(initial, started, obtain, k) == Some(cert)
    ensures forall j :: k < j <= ticks ==> Attempts(initial, started, obtain, j) && obtain(j).None?
    decreases ticks - k
  {
    if k < ticks {
      HeldSince(initial, started, obtain, ticks, cert, k + 1);
      assert obtain(k + 1) != Some(cert);
      assert CertAfter(initial, started, obtain, k) == Some(cert);
      assert Attempts(initial, started, obtain, k + 1);
    }
  }

  lemma WindowOpens(cert: Cert, started: Instant)
    ensures TickTime(started, BeforeWindow(cert, started)) <= cert.notAfter - RENEW_BEFORE
    ensures cert.notAfter - RENEW_BEFORE < TickTime(started, BeforeWindow(cert, started) + 1)
    ensures BeforeWindow(cert, started) < 0 ==> cert.notAfter - RENEW_BEFORE < TickTime(started, 1)
  {
  }

  lemma TicksAreOrdered(started: Instant, j: int, k: int)
    ensures j < k <==> TickTime(started, j) < TickTime(started, k)
    ensures j < k ==> TickTime(started, j) + CHECK_INTERVAL <= TickTime(started, k)
  {
  }

  lemma WindowTick(initial: Option<Cert>, started: Instant, obtain: nat -> Option<Cert>,
                   took: nat -> int, ticks: nat, at: Instant, cert: Cert, k: nat)
    requires IssuesLong(started, obtain) && EndsBeforeNextTick(took)
    requires InForce(started, took, ticks, at)
    requires CertAfter(initial, started, obtain, ticks) == Some(cert)
    requires at > cert.notAfter
    requires k >= 1 && InWindow(cert, started, k)
    ensures k <= ticks + 1 && Attempts(initial, started, obtain, k)
    ensures k <= ticks ==> obtain(k).None?
  {
    TicksAreOrdered(started, ticks + 1, k);
    assert TickTime(started, k) < TickTime(started, ticks + 1) + CHECK_INTERVAL;
    HeldSince(initial, started, obtain, ticks, cert, k - 1);
  }

  /**
   * If the certificate in force at some instant has expired, every tick of its
   * last thirty days asked for another and got none; only the sixtieth of these
   * requests can still be under way.
   */
  lemma ExpiryTakesSixtyFailures(initial: Option<Cert>, started: Instant, obtain: nat -> Option<Cert>,
                                 took: nat -> int, ticks: nat, at: Instant, cert: Cert)
    requires IssuesLong(started, obtain) && EndsBeforeNextTick(took)
    requires InForce(started, took, ticks, at)
    requires CertAfter(initial, started, obtain, ticks) == Some(cert)
    requires at > cert.notAfter
    ensures forall k: nat :: k >= 1 && InWindow(cert, started, k) ==>
              && k <= ticks + 1
              && Attempts(initial, started, obtain, k)
              && (k <= ticks ==> obtain(k).None?)
    ensures initial.Some? && initial.value.notAfter >= started + RENEW_BEFORE ==> BeforeWindow(cert, started) >= 0
  {
    forall k: nat | k >= 1 && InWindow(cert, started, k)
      ensures k <= ticks + 1 && Attempts(initial, started, obtain, k) && (k <= ticks ==> obtain(k).None?)
    {
      WindowTick(initial, started, obtain, took, ticks, at, cert, k);
    }
    if initial.Some? && BeforeWindow(cert, started) < 0 {
      WindowOpens(cert, started);
      HeldSince(initial, started, obtain, ticks, cert, 0);
    }
  }
}
