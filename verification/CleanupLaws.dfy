/**
 * What cleanup can be seen to do, serial grain: a run against the same run with its cleanups
 * skipped, step for step, whatever faults, restarts and DELETEs lie in between.
 */
module CleanupLaws {
  import opened Base
  import opened Tables
  import opened Broker
  import opened Invariants

  // ----- the run without its cleanups

  /** The worlds of the same steps when every cleanup is skipped. */
  ghost predicate SkipsCleanup(us: seq<World>, steps: seq<Step>) {
    |us| == |steps| + 1 && forall n :: 0 <= n < |steps| ==> SkippingAt(us, steps, n)
  }

  ghost predicate SkippingAt(us: seq<World>, steps: seq<Step>, n: nat)
    requires n < |steps| && |us| == |steps| + 1
  {
    us[n + 1] == if steps[n].CleanupStep? then us[n] else Next(us[n], steps[n])
  }

  /** What a reply grants: tokens or a forwarded request; every other reply grants nothing. */
  function Granted(r: Reply): Option<Reply> {
    if r.ApprovedWith? || r.RefreshedWith? || r.Forwarded? then Some(r) else None
  }

  /** A DELETE whose token is stored presents it before it expires. */
  ghost predicate DeletesInTime(u: World, s: Step) {
    s.RevokeStep? ==>
      var found := FindAccess(u.t.access, HashSecret(u.cfg, s.token));
      found.Some? ==> !Expired(s.now, u.t.access[found.value].expiresAt)
  }

  /** Neither the lookup of a DELETE nor its transaction fails. */
  predicate Works(faults: set<Point>) {
    ReadAccess !in faults && Revocation !in faults
  }

  /** The cleanups have taken the row of the token that a DELETE presents, and no fault would have stopped it. */
  ghost predicate Misses(w: World, u: World, s: Step) {
    && s.RevokeStep? && Works(s.faults)
    && FindAccess(w.t.access, HashSecret(w.cfg, s.token)).None?
    && FindAccess(u.t.access, HashSecret(u.cfg, s.token)).Some?
  }

  /** The device whose sessions the DELETE should have revoked. */
  ghost function MissedDevice(w: World, u: World, s: Step): Id
    requires Misses(w, u, s)
  {
    u.t.access[FindAccess(u.t.access, HashSecret(u.cfg, s.token)).value].device
  }

  ghost function MissedBy(w: World, u: World, s: Step): set<Id> {
    if Misses(w, u, s) then {MissedDevice(w, u, s)} else {}
  }

  /** The devices of all DELETEs missed in the first `n` steps. */
  ghost function MissedBefore(ws: seq<World>, us: seq<World>, steps: seq<Step>, n: nat): set<Id>
    requires n <= |steps| && |ws| == |us| == |steps| + 1
  {
    set k | 0 <= k < n && Misses(ws[k], us[k], steps[k]) :: MissedDevice(ws[k], us[k], steps[k])
  }

  /** The step presents a token that is stored for one of the devices. */
  ghost predicate ActsFor(w: World, s: Step, devices: set<Id>) {
    if s.RefreshStep? then
      var found := FindRefresh(w.t.refresh, HashSecret(w.cfg, s.token));
      found.Some? && w.t.refresh[found.value].device in devices
    else if s.ProxyStep? then
      var found := FindAccess(w.t.access, HashSecret(w.cfg, s.token));
      found.Some? && w.t.access[found.value].device in devices
    else false
  }

  // ----- the simulation

  /**
   * `w` is `u` less some rows that have expired by `w`'s clock, as far as the devices outside
   * `missed` go. In `u` every session of a device in `missed` is revoked.
   */
  ghost predicate Trimmed(w: World, u: World, missed: set<Id>) {
    && w.cfg == u.cfg && w.ids == u.ids && w.hashes == u.hashes && u.clock <= w.clock && missed <= w.ids
    && SameDevices(w.t.devices, u.t.devices)
    && TrimmedAuths(w.t.auths, u.t.auths, w.clock)
    && TrimmedAccess(w.t.access, u.t.access, missed, w.clock)
    && TrimmedRefresh(w.t.refresh, u.t.refresh, missed, w.clock)
  }

  /** The same but for the last-seen marks. */
  ghost predicate SameDevices(a: map<Id, Device>, b: map<Id, Device>) {
    && a.Keys == b.Keys
    && forall i :: i in a && i in b ==> a[i].email == b[i].email && a[i].revokedAt == b[i].revokedAt
  }

  ghost predicate TrimmedAuths(a: map<Id, AuthRow>, b: map<Id, AuthRow>, clock: Instant) {
    && (forall i :: i in a ==> i in b && a[i] == b[i])
    && (forall i :: i in b && i !in a ==> Expired(clock, b[i].expiresAt))
  }

  ghost predicate TrimmedAccess(a: map<Id, AccessRow>, b: map<Id, AccessRow>, missed: set<Id>, clock: Instant) {
    && (forall i :: i in a && a[i].device !in missed ==> i in b && a[i] == b[i])
    && (forall i :: i in b && i !in a && b[i].device !in missed ==> Expired(clock, b[i].expiresAt))
    && (forall i :: i in b && b[i].device in missed ==> b[i].revokedAt.Some?)
    && (forall i :: i in a && i in b ==> a[i].device == b[i].device)
    && (forall i, j :: i in a && j in b && a[i].hash == b[j].hash ==> i == j)
  }

  ghost predicate TrimmedRefresh(a: map<Id, RefreshRow>, b: map<Id, RefreshRow>, missed: set<Id>, clock: Instant) {
    && (forall i :: i in a && a[i].device !in missed ==> i in b && a[i] == b[i])
    && (forall i :: i in b && i !in a && b[i].device !in missed ==> Expired(clock, b[i].expiresAt))
    && (forall i :: i in b && b[i].device in missed ==> b[i].revokedAt.Some?)
    && (forall i :: i in a && i in b ==> a[i].device == b[i].device)
    && (forall i, j :: i in a && j in b && a[i].hash == b[j].hash ==> i == j)
  }

  ghost predicate Pre(w: World, u: World, missed: set<Id>, s: Step) {
    Inv(w) && Inv(u) && Trimmed(w, u, missed) && Enabled(w, s)
  }

  lemma StartsTrimmed(w: World)
    requires Inv(w)
    ensures Trimmed(w, w, {})
  {
  }

  lemma CleanedTables(a: Tables, a1: Tables, b: Tables, missed: set<Id>, clock: Instant, now: Instant, deletes: nat)
    requires TrimmedAuths(a.auths, b.auths, clock) && TrimmedAccess(a.access, b.access, missed, clock)
    requires TrimmedRefresh(a.refresh, b.refresh, missed, clock) && clock <= now
    requires a1 == Cleaned(a, Unix(now), deletes)
    ensures TrimmedAuths(a1.auths, b.auths, now) && TrimmedAccess(a1.access, b.access, missed, now)
    ensures TrimmedRefresh(a1.refresh, b.refresh, missed, now)
  {
    forall e | Collectable(now, e)
      ensures Expired(now, e)
    {
      CollectableIsExpired(now, now, e);
    }
  }

  lemma CleanupTrims(w: World, u: World, missed: set<Id>, s: Step)
    requires Pre(w, u, missed, s) && s.CleanupStep?
    ensures Trimmed(Next(w, s), u, missed)
  {
    var w1 := Next(w, s);
    assert w1.ids == w.ids && w1.hashes == w.hashes;
    CleanedTables(w.t, w1.t, u.t, missed, w.clock, s.now, s.deletes);
  }

  // ----- what a lookup finds in both

  lemma RefreshLookups(a: map<Id, RefreshRow>, b: map<Id, RefreshRow>, missed: set<Id>, clock: Instant, h: Digest)
    requires TrimmedRefresh(a, b, missed, clock) && RefreshHashesUnique(b)
    ensures var i, j := FindRefresh(a, h), FindRefresh(b, h);
            && (i.Some? && j.Some? ==> i == j && a[i.value].device == b[j.value].device)
            && (i.Some? && a[i.value].device !in missed ==> j == i && b[i.value] == a[i.value])
            && (i.None? && j.Some? && b[j.value].device !in missed ==> Expired(clock, b[j.value].expiresAt))
            && (j.Some? && b[j.value].device in missed ==> b[j.value].revokedAt.Some?)
  {
  }

  lemma AccessLookups(a: map<Id, AccessRow>, b: map<Id, AccessRow>, missed: set<Id>, clock: Instant, h: Digest)
    requires TrimmedAccess(a, b, missed, clock) && AccessHashesUnique(b)
    ensures var i, j := FindAccess(a, h), FindAccess(b, h);
            && (i.Some? && j.Some? ==> i == j && a[i.value].device == b[j.value].device)
            && (i.Some? && a[i.value].device !in missed ==> j == i && b[i.value] == a[i.value])
            && (i.None? && j.Some? && b[j.value].device !in missed ==> Expired(clock, b[j.value].expiresAt))
            && (j.Some? && b[j.value].device in missed ==> b[j.value].revokedAt.Some?)
  {
  }

  // ----- the simulation, table by table

  ghost predicate NewAccessKey(rows: map<Id, AccessRow>, id: Id, h: Digest) {
    id !in rows && forall i :: i in rows ==> rows[i].hash != h
  }

  ghost predicate NewRefreshKey(rows: map<Id, RefreshRow>, id: Id, h: Digest) {
    id !in rows && forall i :: i in rows ==> rows[i].hash != h
  }

  /** What a step draws is new in both worlds. */
  ghost predicate DrawsNew(w: World, u: World, m: Mint) {
    var h, g := HashSecret(w.cfg, m.accessToken), HashSecret(w.cfg, m.refreshToken);
    && NewAccessKey(w.t.access, m.accessId, h) && NewAccessKey(u.t.access, m.accessId, h)
    && NewRefreshKey(w.t.refresh, m.refreshId, g) && NewRefreshKey(u.t.refresh, m.refreshId, g)
  }

  lemma DrawsAreNew(w: World, u: World, missed: set<Id>, s: Step)
    requires Pre(w, u, missed, s) && (s.PollStep? || s.RefreshStep?)
    ensures DrawsNew(w, u, s.mint) && (s.PollStep? ==> s.mint.deviceId !in missed)
  {
  }

  /** A new row goes into both tables, or into the first alone when its device was missed. */
  lemma AccessStaysTrimmed(a: map<Id, AccessRow>, a1: map<Id, AccessRow>, b: map<Id, AccessRow>, b1: map<Id, AccessRow>,
                           missed: set<Id>, clock: Instant, later: Instant, id: Id, row: AccessRow)
    requires TrimmedAccess(a, b, missed, clock) && clock <= later
    requires NewAccessKey(a, id, row.hash) && NewAccessKey(b, id, row.hash)
    requires (a1 == a && b1 == b)
             || (a1 == a[id := row] && b1 == if row.device in missed then b else b[id := row])
    ensures TrimmedAccess(a1, b1, missed, later)
  {
  }

  lemma RefreshStaysTrimmed(a: map<Id, RefreshRow>, a1: map<Id, RefreshRow>,
                            b: map<Id, RefreshRow>, b1: map<Id, RefreshRow>,
                            missed: set<Id>, clock: Instant, later: Instant, id: Id, row: RefreshRow)
    requires TrimmedRefresh(a, b, missed, clock) && clock <= later
    requires NewRefreshKey(a, id, row.hash) && NewRefreshKey(b, id, row.hash)
    requires (a1 == a && b1 == b)
             || (a1 == a[id := row] && b1 == if row.device in missed then b else b[id := row])
    ensures TrimmedRefresh(a1, b1, missed, later)
  {
  }

  lemma MarkStaysTrimmed(a: map<Id, RefreshRow>, b: map<Id, RefreshRow>, missed: set<Id>, clock: Instant, used: Id,
                         now: Seconds)
    requires TrimmedRefresh(a, b, missed, clock) && used in a
    ensures if a[used].device in missed then TrimmedRefresh(WithRotated(a, used, now), b, missed, clock)
            else used in b && TrimmedRefresh(WithRotated(a, used, now), WithRotated(b, used, now), missed, clock)
  {
  }

  lemma RotationStaysTrimmed(a: map<Id, RefreshRow>, a1: map<Id, RefreshRow>,
                             b: map<Id, RefreshRow>, b1: map<Id, RefreshRow>,
                             missed: set<Id>, clock: Instant, later: Instant, used: Id, id: Id, h: Digest, now: Seconds,
                             until: Seconds)
    requires TrimmedRefresh(a, b, missed, clock) && clock <= later && used in a
    requires NewRefreshKey(a, id, h) && NewRefreshKey(b, id, h) && (a[used].device !in missed ==> used in b)
    requires (a1 == a && b1 == b)
             || (&& a1 == Rotated(a, used, id, h, now, until)
                 && b1 == if a[used].device in missed then b else Rotated(b, used, id, h, now, until))
    ensures TrimmedRefresh(a1, b1, missed, later)
  {
    var row := RefreshRow(a[used].device, h, Some(a[used].hash), now, until, None, None);
    if a1 == a && b1 == b {
      RefreshStaysTrimmed(a, a1, b, b1, missed, clock, later, id, row);
    } else {
      MarkStaysTrimmed(a, b, missed, clock, used, now);
      var a0, b0 := WithRotated(a, used, now), if a[used].device in missed then b else WithRotated(b, used, now);
      assert forall i :: i in a0 ==> a0[i].hash == a[i].hash;
      assert forall i :: i in b0 ==> b0[i].hash == b[i].hash;
      RefreshStaysTrimmed(a0, a1, b0, b1, missed, clock, later, id, row);
    }
  }

  /**
   * Both revoke the device, or the first alone when it was missed before, or the second alone
   * and it is missed from now on.
   */
  lemma RevokedAccessStaysTrimmed(a: map<Id, AccessRow>, a1: map<Id, AccessRow>,
                                  b: map<Id, AccessRow>, b1: map<Id, AccessRow>, missed: set<Id>,
                                  clock: Instant, later: Instant, device: Id, now: Seconds, first: bool, second: bool)
    requires TrimmedAccess(a, b, missed, clock) && clock <= later && (first && !second ==> device in missed)
    requires a1 == (if first then WithAccessRevoked(a, device, now) else a)
    requires b1 == (if second then WithAccessRevoked(b, device, now) else b)
    ensures TrimmedAccess(a1, b1, if second && !first then missed + {device} else missed, later)
  {
  }

  lemma RevokedRefreshStaysTrimmed(a: map<Id, RefreshRow>, a1: map<Id, RefreshRow>,
                                   b: map<Id, RefreshRow>, b1: map<Id, RefreshRow>, missed: set<Id>,
                                   clock: Instant, later: Instant, device: Id, now: Seconds, first: bool, second: bool)
    requires TrimmedRefresh(a, b, missed, clock) && clock <= later && (first && !second ==> device in missed)
    requires a1 == (if first then WithRefreshRevoked(a, device, now) else a)
    requires b1 == (if second then WithRefreshRevoked(b, device, now) else b)
    ensures TrimmedRefresh(a1, b1, if second && !first then missed + {device} else missed, later)
  {
  }

  /** Rows that nothing touches stay trimmed as time goes on. */
  lemma LaterIsTrimmed(a: Tables, b: Tables, missed: set<Id>, clock: Instant, later: Instant)
    requires TrimmedAuths(a.auths, b.auths, clock) && TrimmedAccess(a.access, b.access, missed, clock)
    requires TrimmedRefresh(a.refresh, b.refresh, missed, clock) && clock <= later
    ensures TrimmedAuths(a.auths, b.auths, later) && TrimmedAccess(a.access, b.access, missed, later)
    ensures TrimmedRefresh(a.refresh, b.refresh, missed, later)
  {
  }

  lemma AuthsStayTrimmed(a: map<Id, AuthRow>, b: map<Id, AuthRow>, clock: Instant, later: Instant, cfg: Config, s: Step)
    requires TrimmedAuths(a, b, clock) && clock <= later && s.PollStep?
    ensures TrimmedAuths(a, b, later)
    ensures s.id in a ==>
              TrimmedAuths(a[s.id := MarkedRow(a[s.id], cfg, s)], b[s.id := MarkedRow(b[s.id], cfg, s)], later)
    ensures s.id in b && s.id !in a ==> TrimmedAuths(a, b[s.id := MarkedRow(b[s.id], cfg, s)], later)
  {
  }

  lemma ConsumptionStaysTrimmed(a: map<Id, AuthRow>, b: map<Id, AuthRow>, clock: Instant, s: Step, email: string)
    requires TrimmedAuths(a, b, clock) && s.PollStep? && s.id in a
    ensures TrimmedAuths(Consumption(a, s, email), Consumption(b, s, email), clock)
  {
  }

  // ----- the simulation, handler by handler

  lemma ApprovableAgrees(w: World, u: World, missed: set<Id>, s: Step)
    requires Trimmed(w, u, missed) && Enabled(w, s) && s.PollStep?
    ensures Approvable(w, s) <==> Approvable(u, s)
  {
  }

  /** The tables of an approval, table by table. */
  ghost predicate ApprovalTables(w: World, w1: World, s: Step)
    requires s.PollStep? && s.answer.TokenWithEmails?
  {
    var stage := PairingStage(s.faults);
    && w1.t.devices == (if stage >= 1 then w.t.devices[s.mint.deviceId := PairedDevice(s)] else w.t.devices)
    && w1.t.access == (
         if stage >= 2 then w.t.access[s.mint.accessId := NewAccess(w, s.mint, s.mint.deviceId, s.pollClock.issue)]
         else w.t.access)
    && w1.t.refresh == (if stage >= 3 then w.t.refresh[s.mint.refreshId := PairedRefresh(w, s)] else w.t.refresh)
    && w1.t.auths == (if stage >= 3 then Consumption(w.t.auths, s, PrimaryEmail(s.answer.emails)) else w.t.auths)
    && w1.cfg == w.cfg && w1.ids == w.ids + DrawnIds(s) && w1.hashes == w.hashes + DrawnHashes(s, w.cfg)
    && w1.clock == s.pollClock.consumed
  }

  lemma ApprovalEffect(w: World, s: Step)
    requires Inv(w) && Enabled(w, s) && s.PollStep? && Approvable(w, s)
    ensures ApprovalTables(w, Next(w, s), s)
    ensures Granted(Respond(w, s)) == if PairingStage(s.faults) < 3 then None else
              Some(ApprovedWith(PrimaryEmail(s.answer.emails), s.mint.accessToken, s.mint.refreshToken,
                                Unix(s.pollClock.issue + w.cfg.accessTTL), Unix(s.pollClock.issue + w.cfg.refreshTTL)))
  {
    PollApproves(w, s);
    ApproveEffect(w, s);
  }

  lemma ApprovalTrims(w: World, u: World, missed: set<Id>, w1: World, u1: World, s: Step)
    requires Trimmed(w, u, missed) && s.PollStep? && s.answer.TokenWithEmails? && s.id in w.t.auths
    requires w.clock <= s.pollClock.consumed && DrawsNew(w, u, s.mint) && s.mint.deviceId !in missed
    requires ApprovalTables(w, w1, s) && ApprovalTables(u, u1, s)
    ensures Trimmed(w1, u1, missed)
  {
    var later := w1.clock;
    AccessStaysTrimmed(w.t.access, w1.t.access, u.t.access, u1.t.access, missed, w.clock, later, s.mint.accessId,
                       NewAccess(w, s.mint, s.mint.deviceId, s.pollClock.issue));
    RefreshStaysTrimmed(w.t.refresh, w1.t.refresh, u.t.refresh, u1.t.refresh, missed, w.clock, later, s.mint.refreshId,
                        PairedRefresh(w, s));
    AuthsStayTrimmed(w.t.auths, u.t.auths, w.clock, later, w.cfg, s);
    ConsumptionStaysTrimmed(w.t.auths, u.t.auths, later, s, PrimaryEmail(s.answer.emails));
  }

  lemma ApprovalAgrees(w: World, u: World, missed: set<Id>, s: Step)
    requires Pre(w, u, missed, s) && s.PollStep? && Approvable(w, s) && Approvable(u, s)
    ensures Trimmed(Next(w, s), Next(u, s), missed) && Granted(Respond(u, s)) == Granted(Respond(w, s))
  {
    ApprovalEffect(w, s);
    ApprovalEffect(u, s);
    DrawsAreNew(w, u, missed, s);
    ApprovalTrims(w, u, missed, Next(w, s), Next(u, s), s);
  }

  lemma PollAgrees(w: World, u: World, missed: set<Id>, s: Step)
    requires Pre(w, u, missed, s) && s.PollStep?
    ensures Trimmed(Next(w, s), Next(u, s), missed) && Granted(Respond(u, s)) == Granted(Respond(w, s))
  {
    ApprovableAgrees(w, u, missed, s);
    if Approvable(w, s) {
      ApprovalAgrees(w, u, missed, s);
    } else {
      UnapprovableEffect(w, s);
      UnapprovableEffect(u, s);
      QuietPollAgrees(w, u, missed, s);
    }
  }

  lemma QuietPollAgrees(w: World, u: World, missed: set<Id>, s: Step)
    requires Trimmed(w, u, missed) && s.PollStep? && w.clock <= LastReading(s, w.clock)
    requires Next(w, s).t == w.t.(auths := if ReadAuth in s.faults || s.id !in w.t.auths then w.t.auths
                                           else w.t.auths[s.id := MarkedRow(w.t.auths[s.id], w.cfg, s)])
    requires Next(u, s).t == u.t.(auths := if ReadAuth in s.faults || s.id !in u.t.auths then u.t.auths
                                           else u.t.auths[s.id := MarkedRow(u.t.auths[s.id], u.cfg, s)])
    ensures Trimmed(Next(w, s), Next(u, s), missed)
  {
    var later := LastReading(s, w.clock);
    LaterIsTrimmed(w.t, u.t, missed, w.clock, later);
    AuthsStayTrimmed(w.t.auths, u.t.auths, w.clock, later, w.cfg, s);
  }

  /** Without the cleanups a refresh passes exactly where it does with them, less the missed devices. */
  lemma RefreshableAgrees(w: World, u: World, missed: set<Id>, s: Step)
    requires Pre(w, u, missed, s) && s.RefreshStep?
    ensures Refreshable(u, s) <==> Refreshable(w, s) && !ActsFor(w, s, missed)
    ensures Refreshable(u, s) ==>
              FindRefresh(u.t.refresh, HashSecret(u.cfg, s.token))
              == FindRefresh(w.t.refresh, HashSecret(w.cfg, s.token))
  {
    RefreshLookups(w.t.refresh, u.t.refresh, missed, w.clock, HashSecret(w.cfg, s.token));
  }

  /** The tables of an accepted refresh, table by table. */
  ghost predicate RefreshTables(w: World, w1: World, s: Step, used: Id)
    requires s.RefreshStep? && used in w.t.refresh
  {
    var m, c := s.mint, s.refreshClock;
    && w1.t.auths == w.t.auths && w1.t.devices == w.t.devices
    && w1.t.access == (
         if AddsAccess(s.faults) then w.t.access[m.accessId := NewAccess(w, m, w.t.refresh[used].device, c.issue)]
         else w.t.access)
    && w1.t.refresh == (if AddsAccess(s.faults) && Rotation !in s.faults
         then Rotated(w.t.refresh, used, m.refreshId, HashSecret(w.cfg, m.refreshToken),
                      Unix(c.rotate), Unix(c.issue + w.cfg.refreshTTL))
         else w.t.refresh)
    && w1.cfg == w.cfg && w1.ids == w.ids + DrawnIds(s) && w1.hashes == w.hashes + DrawnHashes(s, w.cfg)
    && w1.clock == c.rotate
  }

  lemma RefreshEffect(w: World, s: Step)
    requires Inv(w) && Enabled(w, s) && s.RefreshStep? && Refreshable(w, s)
    ensures RefreshTables(w, Next(w, s), s, FindRefresh(w.t.refresh, HashSecret(w.cfg, s.token)).value)
    ensures Granted(Respond(w, s)) == if AddsAccess(s.faults) && Rotation !in s.faults
              then Some(RefreshedWith(s.mint.accessToken, s.mint.refreshToken,
                                      Unix(s.refreshClock.issue + w.cfg.accessTTL),
                                      Unix(s.refreshClock.issue + w.cfg.refreshTTL)))
              else None
  {
    RefreshShape(w, s);
  }

  lemma RefreshTrims(w: World, u: World, missed: set<Id>, w1: World, u1: World, s: Step, used: Id)
    requires Trimmed(w, u, missed) && s.RefreshStep? && used in w.t.refresh && RefreshTables(w, w1, s, used)
    requires w.clock <= s.refreshClock.rotate && DrawsNew(w, u, s.mint)
    requires if w.t.refresh[used].device in missed then u1 == World(u.t, u.cfg, w1.clock, w1.ids, w1.hashes)
             else used in u.t.refresh && RefreshTables(u, u1, s, used)
    ensures Trimmed(w1, u1, missed)
  {
    var later, m, c := w1.clock, s.mint, s.refreshClock;
    AccessStaysTrimmed(w.t.access, w1.t.access, u.t.access, u1.t.access, missed, w.clock, later, m.accessId,
                       NewAccess(w, m, w.t.refresh[used].device, c.issue));
    RotationStaysTrimmed(w.t.refresh, w1.t.refresh, u.t.refresh, u1.t.refresh, missed, w.clock, later, used,
                         m.refreshId, HashSecret(w.cfg, m.refreshToken), Unix(c.rotate),
                         Unix(c.issue + w.cfg.refreshTTL));
    LaterIsTrimmed(w.t, u.t, missed, w.clock, later);
  }

  lemma RotationAgrees(w: World, u: World, missed: set<Id>, s: Step)
    requires Pre(w, u, missed, s) && Enabled(u, s) && s.RefreshStep? && Refreshable(w, s)
    ensures Trimmed(Next(w, s), Next(u, s), missed)
    ensures Granted(Respond(u, s)) == if ActsFor(w, s, missed) then None else Granted(Respond(w, s))
  {
    var used := FindRefresh(w.t.refresh, HashSecret(w.cfg, s.token)).value;
    RefreshableAgrees(w, u, missed, s);
    RefreshEffect(w, s);
    if Refreshable(u, s) { RefreshEffect(u, s); } else { RefusedRefresh(u, s); }
    DrawsAreNew(w, u, missed, s);
    RefreshTrims(w, u, missed, Next(w, s), Next(u, s), s, used);
  }

  lemma RefreshAgrees(w: World, u: World, missed: set<Id>, s: Step)
    requires Pre(w, u, missed, s) && Enabled(u, s) && s.RefreshStep?
    ensures Trimmed(Next(w, s), Next(u, s), missed)
    ensures Granted(Respond(u, s)) == if ActsFor(w, s, missed) then None else Granted(Respond(w, s))
  {
    if Refreshable(w, s) {
      RotationAgrees(w, u, missed, s);
    } else {
      RefreshableAgrees(w, u, missed, s);
      RefusedRefresh(w, s);
      RefusedRefresh(u, s);
      LaterIsTrimmed(w.t, u.t, missed, w.clock, Next(w, s).clock);
    }
  }

  lemma AdmissibleAgrees(w: World, u: World, missed: set<Id>, s: Step)
    requires Pre(w, u, missed, s) && s.ProxyStep?
    ensures Admissible(u, s) <==> Admissible(w, s) && !ActsFor(w, s, missed)
    ensures Admissible(u, s) ==>
              FindAccess(u.t.access, HashSecret(u.cfg, s.token)) == FindAccess(w.t.access, HashSecret(w.cfg, s.token))
    ensures Admissible(w, s) && Admissible(u, s) ==>
              var i := FindAccess(w.t.access, HashSecret(w.cfg, s.token)).value; u.t.access[i] == w.t.access[i]
  {
    AccessLookups(w.t.access, u.t.access, missed, w.clock, HashSecret(w.cfg, s.token));
  }

  /** Which of the two worlds revokes a device in this step. */
  ghost predicate RevokesIf(v: World, v1: World, on: bool, device: Id, now: Seconds) {
    && v1.t.refresh == (if on then WithRefreshRevoked(v.t.refresh, device, now) else v.t.refresh)
    && v1.t.access == (if on then WithAccessRevoked(v.t.access, device, now) else v.t.access)
    && v1.t.auths == v.t.auths
  }

  lemma SessionsStayTrimmed(w: World, u: World, missed: set<Id>, w1: World, u1: World, device: Id, now: Seconds,
                            first: bool, second: bool)
    requires Trimmed(w, u, missed) && w.clock <= w1.clock && u1.clock <= w1.clock && missed <= w1.ids
    requires w1.cfg == u1.cfg && w1.ids == u1.ids && w1.hashes == u1.hashes && SameDevices(w1.t.devices, u1.t.devices)
    requires RevokesIf(w, w1, first, device, now) && RevokesIf(u, u1, second, device, now)
    requires (first && !second ==> device in missed) && (second && !first ==> device in w1.ids)
    ensures Trimmed(w1, u1, if second && !first then missed + {device} else missed)
  {
    LaterIsTrimmed(w.t, u.t, missed, w.clock, w1.clock);
    RevokedAccessStaysTrimmed(w.t.access, w1.t.access, u.t.access, u1.t.access, missed, w.clock, w1.clock, device, now,
                              first, second);
    RevokedRefreshStaysTrimmed(w.t.refresh, w1.t.refresh, u.t.refresh, u1.t.refresh, missed, w.clock, w1.clock, device,
                               now, first, second);
  }

  lemma ProxyAgrees(w: World, u: World, missed: set<Id>, s: Step)
    requires Pre(w, u, missed, s) && s.ProxyStep?
    ensures Trimmed(Next(w, s), Next(u, s), missed)
    ensures Granted(Respond(u, s)) == if ActsFor(w, s, missed) then None else Granted(Respond(w, s))
  {
    AdmissibleAgrees(w, u, missed, s);
    ProxyShape(w, s);
    ProxyShape(u, s);
    var w1, u1, now := Next(w, s), Next(u, s), Unix(s.proxyClock.write);
    var found := FindAccess(w.t.access, HashSecret(w.cfg, s.token));
    var device := if found.Some? then w.t.access[found.value].device else 0;
    var listed := device in w.t.devices && IsEmailAllowed(w.cfg, w.t.devices[device].email);
    var revokes := !listed && Revocation !in s.faults;
    SessionsStayTrimmed(w, u, missed, w1, u1, device, now, Admissible(w, s) && revokes, Admissible(u, s) && revokes);
  }

  /** What a DELETE does, with the device named by the row if there is one. */
  lemma DeleteEffect(w: World, s: Step, device: Id)
    requires s.RevokeStep?
    requires var found := FindAccess(w.t.access, HashSecret(w.cfg, s.token));
             found.Some? ==> device == w.t.access[found.value].device
    ensures RevokesIf(w, Next(w, s), FindAccess(w.t.access, HashSecret(w.cfg, s.token)).Some? && Works(s.faults),
                      device, Unix(s.now))
    ensures Next(w, s) == World(Next(w, s).t, w.cfg, s.now, w.ids, w.hashes) && Next(w, s).t.devices == w.t.devices
    ensures Granted(Respond(w, s)) == None
  {
    RevokeShape(w, s);
  }

  lemma DeleteAgrees(w: World, u: World, missed: set<Id>, s: Step)
    requires Pre(w, u, missed, s) && s.RevokeStep?
    ensures Trimmed(Next(w, s), Next(u, s), missed + MissedBy(w, u, s))
    ensures Granted(Respond(u, s)) == Granted(Respond(w, s)) == None
  {
    var h, works := HashSecret(w.cfg, s.token), Works(s.faults);
    AccessLookups(w.t.access, u.t.access, missed, w.clock, h);
    var i, j := FindAccess(w.t.access, h), FindAccess(u.t.access, h);
    var device := if i.Some? then w.t.access[i.value].device else if j.Some? then u.t.access[j.value].device else 0;
    DeleteEffect(w, s, device);
    DeleteEffect(u, s, device);
    SessionsStayTrimmed(w, u, missed, Next(w, s), Next(u, s), device, Unix(s.now), i.Some? && works, j.Some? && works);
    assert missed + MissedBy(w, u, s) == if j.Some? && i.None? && works then missed + {device} else missed;
  }

  lemma CreateAgrees(w: World, u: World, missed: set<Id>, s: Step)
    requires Pre(w, u, missed, s) && (s.CreateStep? || s.RestartStep?)
    ensures Trimmed(Next(w, s), Next(u, s), missed) && Granted(Respond(u, s)) == Granted(Respond(w, s))
  {
    LaterIsTrimmed(w.t, u.t, missed, w.clock, Next(w, s).clock);
  }

  /** Every other step grants the same in both worlds, but for tokens of the missed devices. */
  lemma StepAgrees(w: World, u: World, missed: set<Id>, s: Step)
    requires Pre(w, u, missed, s) && !s.CleanupStep?
    ensures Enabled(u, s)
    ensures Trimmed(Next(w, s), Next(u, s), missed + MissedBy(w, u, s))
    ensures Granted(Respond(u, s)) == if ActsFor(w, s, missed) then None else Granted(Respond(w, s))
  {
    TrimmedEnables(w, u, missed, s);
    if !s.RevokeStep? { assert missed + MissedBy(w, u, s) == missed; }
    match s
    case PollStep(_, _, _, _, _) => PollAgrees(w, u, missed, s);
    case RefreshStep(_, _, _, _) => RefreshAgrees(w, u, missed, s);
    case RevokeStep(_, _, _) => DeleteAgrees(w, u, missed, s);
    case ProxyStep(_, _, _) => ProxyAgrees(w, u, missed, s);
    case _ => CreateAgrees(w, u, missed, s);
  }

  /** The steps stay possible when the cleanups between them are left out. */
  lemma TrimmedEnables(w: World, u: World, missed: set<Id>, s: Step)
    requires Trimmed(w, u, missed) && Enabled(w, s) && !s.CleanupStep?
    ensures Enabled(u, s)
  {
  }

  // ----- whole runs

  lemma WorldsStep(w: World, u: World, missed: set<Id>, s: Step)
    requires Pre(w, u, missed, s)
    ensures var u1 := if s.CleanupStep? then u else Next(u, s);
            Inv(Next(w, s)) && Inv(u1) && Trimmed(Next(w, s), u1, missed + MissedBy(w, u, s))
  {
    NextKeepsInv(w, s);
    if s.CleanupStep? {
      CleanupTrims(w, u, missed, s);
      assert missed + MissedBy(w, u, s) == missed;
    } else {
      StepAgrees(w, u, missed, s);
      NextKeepsInv(u, s);
    }
  }

  lemma MissedGrows(ws: seq<World>, us: seq<World>, steps: seq<Step>, n: nat)
    requires n < |steps| && |ws| == |us| == |steps| + 1
    ensures MissedBefore(ws, us, steps, n + 1) == MissedBefore(ws, us, steps, n) + MissedBy(ws[n], us[n], steps[n])
  {
  }

  lemma {:induction false} WorldsStayTrimmed(ws: seq<World>, us: seq<World>, steps: seq<Step>, n: nat)
    requires IsRun(ws, steps) && SkipsCleanup(us, steps) && us[0] == ws[0] && Inv(ws[0]) && n < |ws|
    ensures Trimmed(ws[n], us[n], MissedBefore(ws, us, steps, n)) && Inv(ws[n]) && Inv(us[n])
  {
    if n == 0 {
      StartsTrimmed(ws[0]);
    } else {
      WorldsStayTrimmed(ws, us, steps, n - 1);
      assert StepAt(ws, steps, n - 1) && SkippingAt(us, steps, n - 1);
      var missed := MissedBefore(ws, us, steps, n - 1);
      WorldsStep(ws[n - 1], us[n - 1], missed, steps[n - 1]);
      MissedGrows(ws, us, steps, n - 1);
    }
  }

  /** The step is granted something on a token of a device that some earlier DELETE missed. */
  ghost predicate Observed(ws: seq<World>, us: seq<World>, steps: seq<Step>, n: nat)
    requires n < |steps| && |ws| == |us| == |steps| + 1
  {
    Granted(ReplyAt(ws, steps, n)).Some? && ActsFor(ws[n], steps[n], MissedBefore(ws, us, steps, n))
  }

  /**
   * When exactly cleanup is observed. With the cleanups skipped every other step of a run stays
   * possible, and it grants what it granted before, the same token pair or the same forwarded
   * device and e-mail, unless it presents a token stored for a device that some earlier DELETE
   * missed: then it grants nothing.
   */
  lemma WhenCleanupIsObserved(ws: seq<World>, us: seq<World>, steps: seq<Step>, n: nat)
    requires IsRun(ws, steps) && SkipsCleanup(us, steps) && us[0] == ws[0] && Inv(ws[0]) && n < |steps|
    requires !steps[n].CleanupStep?
    ensures Enabled(us[n], steps[n])
    ensures Granted(ReplyAt(us, steps, n)) != Granted(ReplyAt(ws, steps, n)) <==> Observed(ws, us, steps, n)
    ensures Granted(ReplyAt(us, steps, n)) != Granted(ReplyAt(ws, steps, n)) ==> Granted(ReplyAt(us, steps, n)).None?
  {
    WorldsStayTrimmed(ws, us, steps, n);
    assert StepAt(ws, steps, n);
    StepAgrees(ws[n], us[n], MissedBefore(ws, us, steps, n), steps[n]);
  }

  /** So a run in which no DELETE comes after a cleanup has taken the row of its token shows nothing of its cleanups. */
  lemma CleanupIsUnobservable(ws: seq<World>, us: seq<World>, steps: seq<Step>, n: nat)
    requires IsRun(ws, steps) && SkipsCleanup(us, steps) && us[0] == ws[0] && Inv(ws[0]) && n < |steps|
    requires forall k :: 0 <= k < n ==> !Misses(ws[k], us[k], steps[k])
    requires !steps[n].CleanupStep?
    ensures Enabled(us[n], steps[n])
    ensures Granted(ReplyAt(ws, steps, n)) == Granted(ReplyAt(us, steps, n))
  {
    WhenCleanupIsObserved(ws, us, steps, n);
    assert MissedBefore(ws, us, steps, n) == {};
  }

  lemma InTimeIsNotMissed(w: World, u: World, s: Step)
    requires Pre(w, u, {}, s) && DeletesInTime(u, s)
    ensures !Misses(w, u, s)
  {
    if s.RevokeStep? {
      AccessLookups(w.t.access, u.t.access, {}, w.clock, HashSecret(w.cfg, s.token));
    }
  }

  /** A token presented before it expires is never missed, whatever cleanups came before. */
  lemma {:induction false} DeletesInTimeAreNotMissed(ws: seq<World>, us: seq<World>, steps: seq<Step>, n: nat)
    requires IsRun(ws, steps) && SkipsCleanup(us, steps) && us[0] == ws[0] && Inv(ws[0]) && n <= |steps|
    requires forall k :: 0 <= k < n ==> DeletesInTime(us[k], steps[k])
    ensures forall k :: 0 <= k < n ==> !Misses(ws[k], us[k], steps[k])
  {
    if n > 0 {
      DeletesInTimeAreNotMissed(ws, us, steps, n - 1);
      WorldsStayTrimmed(ws, us, steps, n - 1);
      assert MissedBefore(ws, us, steps, n - 1) == {};
      assert StepAt(ws, steps, n - 1);
      InTimeIsNotMissed(ws[n - 1], us[n - 1], steps[n - 1]);
    }
  }
}
