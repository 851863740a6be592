/** What a DELETE loses when a cleanup has taken the row of its token. */
module MissedDeletes {
  import opened Base
  import opened Tables
  import opened Broker
  import opened Invariants
  import opened CleanupLaws

  // ----- the grants that differ

  /**
   * A DELETE comes after a cleanup has taken the row of its token, and some request `g` follows.
   * With and without the cleanups `g` is granted differently if and only if, with them, it is
   * granted at all on a token of the device that the DELETE was meant to revoke, or of one
   * missed before.
   */
  lemma WhenAMissedDeleteChangesAGrant(w: World, u: World, missed: set<Id>, d: Step, g: Step)
    requires Pre(w, u, missed, d) && Misses(w, u, d)
    requires Enabled(Next(w, d), g) && !g.CleanupStep?
    ensures Granted(Respond(Next(w, d), g)) != Granted(Respond(Next(u, d), g)) <==>
              Granted(Respond(Next(w, d), g)).Some? && ActsFor(Next(w, d), g, missed + {MissedDevice(w, u, d)})
  {
    WorldsStep(w, u, missed, d);
    StepAgrees(Next(w, d), Next(u, d), missed + {MissedDevice(w, u, d)}, g);
  }

  /**
   * The loss is for good: whatever is granted at any later step on a token of the device, the
   * run without cleanups does not grant it.
   */
  lemma MissedDeletesAreLost(ws: seq<World>, us: seq<World>, steps: seq<Step>, n: nat, m: nat)
    requires IsRun(ws, steps) && SkipsCleanup(us, steps) && us[0] == ws[0] && Inv(ws[0]) && n < m < |steps|
    requires Misses(ws[n], us[n], steps[n]) && Granted(ReplyAt(ws, steps, m)).Some?
    requires ActsFor(ws[m], steps[m], {MissedDevice(ws[n], us[n], steps[n])})
    ensures Granted(ReplyAt(us, steps, m)).None?
  {
    WhenCleanupIsObserved(ws, us, steps, m);
    assert MissedDevice(ws[n], us[n], steps[n]) in MissedBefore(ws, us, steps, m);
  }

  /** Without faults, a token is granted exactly when its row and its device pass the tests of the request. */
  lemma FaultlessGrants(w: World, g: Step)
    requires Inv(w) && Enabled(w, g)
    ensures g.RefreshStep? && g.faults == {} ==> (Granted(Respond(w, g)).Some? <==> Refreshable(w, g))
    ensures g.ProxyStep? && g.faults == {} ==>
              (Granted(Respond(w, g)).Some? <==>
               Admissible(w, g)
               && var row := w.t.access[FindAccess(w.t.access, HashSecret(w.cfg, g.token)).value];
                  IsEmailAllowed(w.cfg, w.t.devices[row.device].email))
  {
    if g.RefreshStep? {
      if Refreshable(w, g) { RefreshShape(w, g); } else { RefusedRefresh(w, g); }
    } else if g.ProxyStep? {
      ProxyShape(w, g);
    }
  }

  // ----- the marks that differ

  /**
   * Exactly when one cleanup changes what a DELETE after it revokes: the DELETE works, its token
   * is stored and collectable, and its device still has a session that outlives the cleanup and
   * was not revoked yet. Otherwise the cleanup only removes rows.
   */
  lemma WhenCleanupHidesADelete(w: World, c: Step, d: Step)
    requires Inv(w) && c.CleanupStep? && d.RevokeStep?
    ensures Hidden(w, c, d) <==> !SameRevocations(Next(Next(w, c), d).t, Next(w, d).t)
  {
    var h := HashSecret(w.cfg, d.token);
    RevokeShape(w, d);
    RevokeShape(Next(w, c), d);
    KeptLookup(w, c, h);
    var found := FindAccess(w.t.access, h);
    var device := if found.Some? then w.t.access[found.value].device else 0;
    var t := Next(w, c).t;
    if Works(d.faults) && c.deletes >= 3 && found.Some? && Collectable(c.now, w.t.access[found.value].expiresAt) {
      HiddenIffDifferent(w, c, d, t, Revoked(w.t, device, Unix(d.now)));
    } else {
      assert SameRevocations(t, w.t);
      assert SameRevocations(Revoked(t, device, Unix(d.now)), Revoked(w.t, device, Unix(d.now)));
    }
  }

  lemma HiddenIffDifferent(w: World, c: Step, d: Step, t: Tables, u: Tables)
    requires c.CleanupStep? && d.RevokeStep? && t == Cleaned(w.t, Unix(c.now), c.deletes)
    requires c.deletes >= 3 && Works(d.faults)
    requires var found := FindAccess(w.t.access, HashSecret(w.cfg, d.token));
             && found.Some? && Collectable(c.now, w.t.access[found.value].expiresAt)
             && u == Revoked(w.t, w.t.access[found.value].device, Unix(d.now))
    ensures Hidden(w, c, d) <==> !SameRevocations(t, u)
  {
    var device := w.t.access[FindAccess(w.t.access, HashSecret(w.cfg, d.token)).value].device;
    forall i | RefreshSurvives(w, i, device, c.now)
      ensures !SameRevocations(t, u)
    {
      assert i in t.refresh && i in u.refresh;
    }
    forall i | AccessSurvives(w, i, device, c.now)
      ensures !SameRevocations(t, u)
    {
      assert i in t.access && i in u.access;
    }
    forall i | i in t.refresh && i in u.refresh && t.refresh[i].revokedAt.Some? != u.refresh[i].revokedAt.Some?
      ensures RefreshSurvives(w, i, device, c.now)
    {
    }
    forall i | i in t.access && i in u.access && t.access[i].revokedAt.Some? != u.access[i].revokedAt.Some?
      ensures AccessSurvives(w, i, device, c.now)
    {
    }
  }

  lemma KeptLookup(w: World, c: Step, h: Digest)
    requires Inv(w) && c.CleanupStep?
    ensures var found, kept := FindAccess(w.t.access, h), FindAccess(Next(w, c).t.access, h);
            kept == if c.deletes >= 3 && found.Some? && Collectable(c.now, w.t.access[found.value].expiresAt) then None
                    else found
  {
    var a, b := w.t.access, Next(w, c).t.access;
    assert b == if c.deletes >= 3 then KeptAccess(a, Unix(c.now)) else a;
    var found := FindAccess(a, h);
    if found.Some? && found.value in b { assert b[found.value].hash == h; }
  }

  ghost predicate Hidden(w: World, c: Step, d: Step)
    requires c.CleanupStep? && d.RevokeStep?
  {
    var found := FindAccess(w.t.access, HashSecret(w.cfg, d.token));
    && Works(d.faults) && c.deletes >= 3 && found.Some? && Collectable(c.now, w.t.access[found.value].expiresAt)
    && var device := w.t.access[found.value].device;
       (exists i :: RefreshSurvives(w, i, device, c.now)) || (exists i :: AccessSurvives(w, i, device, c.now))
  }

  /** An unrevoked row of the device that a cleanup leaves. */
  ghost predicate RefreshSurvives(w: World, i: Id, device: Id, now: Instant) {
    && i in w.t.refresh && w.t.refresh[i].device == device
    && !Collectable(now, w.t.refresh[i].expiresAt) && w.t.refresh[i].revokedAt.None?
  }

  ghost predicate AccessSurvives(w: World, i: Id, device: Id, now: Instant) {
    && i in w.t.access && w.t.access[i].device == device
    && !Collectable(now, w.t.access[i].expiresAt) && w.t.access[i].revokedAt.None?
  }

  /** The rows stored in both tables are revoked in both or in neither. */
  ghost predicate SameRevocations(t: Tables, u: Tables) {
    && (forall i :: i in t.refresh && i in u.refresh ==>
          (t.refresh[i].revokedAt.Some? <==> u.refresh[i].revokedAt.Some?))
    && (forall i :: i in t.access && i in u.access ==> (t.access[i].revokedAt.Some? <==> u.access[i].revokedAt.Some?))
  }
}
