/** What every step of the broker keeps, serial grain: faults, cleanups and restarts included. */
module Invariants {
  import opened Base
  import opened Tables
  import opened Broker

  // ----- the invariant, table by table

  /** An approved transaction is consumed. */
  ghost predicate AuthsOk(rows: map<Id, AuthRow>, ids: set<Id>) {
    forall i :: i in rows ==> i in ids && (rows[i].status == Approved ==> rows[i].consumedAt.Some?)
  }

  ghost predicate AccessOk(rows: map<Id, AccessRow>, ids: set<Id>, hashes: set<Digest>) {
    && (forall i :: i in rows ==> i in ids && rows[i].hash in hashes)
    && AccessHashesUnique(rows)
  }

  /** A refresh row that has not been rotated yet. */
  ghost predicate Live(rows: map<Id, RefreshRow>, i: Id) {
    i in rows && rows[i].rotatedAt.None?
  }

  /** A device has at most one refresh row that can still be rotated. */
  ghost predicate OneLive(rows: map<Id, RefreshRow>) {
    forall i, j :: Live(rows, i) && Live(rows, j) && rows[i].device == rows[j].device ==> i == j
  }

  /** The parent of a row, where it is still stored, belongs to the same device and is rotated. */
  ghost predicate ParentsSpent(rows: map<Id, RefreshRow>) {
    forall i, j :: i in rows && j in rows && rows[i].parent == Some(rows[j].hash) ==>
      rows[j].device == rows[i].device && rows[j].rotatedAt.Some?
  }

  /** Keys and digests were drawn before, and no digest is stored twice. */
  ghost predicate RefreshDrawn(rows: map<Id, RefreshRow>, ids: set<Id>, hashes: set<Digest>) {
    && (forall i :: i in rows ==>
          i in ids && rows[i].hash in hashes && (rows[i].parent.Some? ==> rows[i].parent.value in hashes))
    && RefreshHashesUnique(rows)
  }

  ghost predicate RefreshOk(rows: map<Id, RefreshRow>, ids: set<Id>, hashes: set<Digest>) {
    RefreshDrawn(rows, ids, hashes) && OneLive(rows) && ParentsSpent(rows)
  }

  /** No session without its device. */
  ghost predicate Anchored(t: Tables) {
    && (forall i :: i in t.refresh ==> t.refresh[i].device in t.devices)
    && (forall i :: i in t.access ==> t.access[i].device in t.devices)
  }

  /** A digest names one device, whichever of the two session tables it is in. */
  ghost predicate OneOwner(t: Tables) {
    forall i, j :: i in t.refresh && j in t.access && t.refresh[i].hash == t.access[j].hash ==>
      t.refresh[i].device == t.access[j].device
  }

  ghost predicate Inv(w: World) {
    && AuthsOk(w.t.auths, w.ids)
    && (forall i :: i in w.t.devices ==> i in w.ids)
    && AccessOk(w.t.access, w.ids, w.hashes)
    && RefreshOk(w.t.refresh, w.ids, w.hashes)
    && Anchored(w.t)
    && OneOwner(w.t)
  }

  // ----- what each handler can do to the tables

  function NewAccess(w: World, m: Mint, device: Id, issue: Instant): AccessRow {
    AccessRow(device, HashSecret(w.cfg, m.accessToken), Unix(issue), Unix(issue + w.cfg.accessTTL), None)
  }

  /** The tables of a rotation: one mark, one successor. */
  function Rotated(rows: map<Id, RefreshRow>, oldId: Id, newId: Id, newHash: Digest, now: Seconds,
                   expiresAt: Seconds): map<Id, RefreshRow>
    requires oldId in rows
  {
    rows[oldId := rows[oldId].(rotatedAt := Some(now))]
        [newId := RefreshRow(rows[oldId].device, newHash, Some(rows[oldId].hash), now, expiresAt, None, None)]
  }

  lemma RotateEffect(t: Tables, oldId: Id, newId: Id, newHash: Digest, now: Seconds, expiresAt: Seconds)
    requires RefreshHashesUnique(t.refresh) && oldId in t.refresh && newId !in t.refresh
    ensures ExecAll(t, RotateTx(oldId, t.refresh[oldId].hash, newId, newHash, now, expiresAt))
         == Some(t.(refresh := Rotated(t.refresh, oldId, newId, newHash, now, expiresAt)))
  {
    var row := t.refresh[oldId];
    ExecAllTwo(t, MarkRotated(oldId, now), InsertSuccessor(newId, row.hash, newHash, now, expiresAt));
    var marked := t.refresh[oldId := row.(rotatedAt := Some(now))];
    assert FindRefresh(marked, row.hash) == Some(oldId) by {
      assert marked[oldId].hash == row.hash;
      assert forall i :: i in marked ==> i in t.refresh && marked[i].hash == t.refresh[i].hash;
    }
  }

  lemma RevokeAllEffect(t: Tables, device: Id, now: Seconds)
    ensures ExecAll(t, RevokeAllTx(device, now))
         == Some(t.(refresh := WithRefreshRevoked(t.refresh, device, now),
                    access := WithAccessRevoked(t.access, device, now)))
  {
    ExecAllTwo(t, RevokeRefreshOf(device, now), RevokeAccessOf(device, now));
  }

  /** pending < slow_down < denied, forbidden < expired; approved stands apart. */
  function Rank(s: Status): nat {
    match s
    case Pending => 0
    case SlowDown => 1
    case Denied => 2
    case Forbidden => 2
    case ExpiredStatus => 3
    case Approved => 4
  }

  /** How one poll may change the row of its transaction. */
  predicate Advances(a: AuthRow, b: AuthRow) {
    && a.expiresAt == b.expiresAt
    && a.pollAfter <= b.pollAfter
    && Rank(a.status) <= Rank(b.status)
    && (a.consumedAt.Some? ==> b == a)
    && (b.status == Approved ==> b.consumedAt.Some?)
  }

  ghost predicate OnlyAdvances(before: map<Id, AuthRow>, after: map<Id, AuthRow>, id: Id) {
    && after.Keys == before.Keys
    && (forall i :: i in before && i != id ==> after[i] == before[i])
    && (id in before ==> Advances(before[id], after[id]))
  }

  function PairedDevice(s: Step): Device
    requires s.PollStep? && s.answer.TokenWithEmails?
  {
    var now := Unix(s.pollClock.device);
    Device(PrimaryEmail(s.answer.emails), now, now, None)
  }

  function PairedRefresh(w: World, s: Step): RefreshRow
    requires s.PollStep?
  {
    var issue := s.pollClock.issue;
    RefreshRow(s.mint.deviceId, HashSecret(w.cfg, s.mint.refreshToken), None,
               Unix(issue), Unix(issue + w.cfg.refreshTTL), None, None)
  }

  /** How many of the three inserts of a pairing take place. */
  function PairingStage(faults: set<Point>): nat {
    if MakeDeviceId in faults || WriteDevice in faults then 0
    else if MakeTokens in faults || MakeAccessId in faults || WriteAccess in faults then 1
    else if MakeRefreshId in faults || WriteRefresh in faults then 2
    else 3
  }

  /** The two marks of an approval, either of which may be lost. */
  function Consumption(rows: map<Id, AuthRow>, s: Step, email: string): map<Id, AuthRow>
    requires s.PollStep?
  {
    var r1 := if WriteStatus in s.faults then rows
              else WithStatus(rows, s.id, Approved, email, Unix(s.pollClock.status));
    if WriteConsumed in s.faults then r1 else WithConsumed(r1, s.id, Unix(s.pollClock.consumed))
  }

  /** What an approval leaves, table by table, when its random ids are fresh. */
  lemma ApproveEffect(w: World, s: Step)
    requires s.PollStep? && s.answer.TokenWithEmails?
    requires s.mint.deviceId !in w.t.devices && s.mint.accessId !in w.t.access && s.mint.refreshId !in w.t.refresh
    ensures var (t1, reply) := Approve(w.t, w.cfg, s.id, PrimaryEmail(s.answer.emails), s.mint, s.pollClock, s.faults);
            var stage := PairingStage(s.faults);
            && t1.devices == (if stage >= 1 then w.t.devices[s.mint.deviceId := PairedDevice(s)] else w.t.devices)
            && t1.access == (
                 if stage >= 2
                 then w.t.access[s.mint.accessId := NewAccess(w, s.mint, s.mint.deviceId, s.pollClock.issue)]
                 else w.t.access)
            && t1.refresh == (if stage >= 3 then w.t.refresh[s.mint.refreshId := PairedRefresh(w, s)] else w.t.refresh)
            && t1.auths == (if stage >= 3 then Consumption(w.t.auths, s, PrimaryEmail(s.answer.emails)) else w.t.auths)
            && reply == (
                 if stage >= 3
                 then ApprovedWith(PrimaryEmail(s.answer.emails), s.mint.accessToken, s.mint.refreshToken,
                                   Unix(s.pollClock.issue + w.cfg.accessTTL),
                                   Unix(s.pollClock.issue + w.cfg.refreshTTL))
                 else ServerError)
  {
  }

  lemma ConsumptionAdvances(rows: map<Id, AuthRow>, s: Step, email: string)
    requires s.PollStep? && s.id in rows && rows[s.id].consumedAt.None? && rows[s.id].status != Approved
    ensures OnlyAdvances(rows, Consumption(rows, s, email), s.id)
  {
  }

  /** GitHub's answer, the transaction and the allow list let a device be paired. */
  ghost predicate Approvable(w: World, s: Step)
    requires s.PollStep?
  {
    && ReadAuth !in s.faults && s.id in w.t.auths && w.t.auths[s.id].consumedAt.None?
    && !Expired(s.pollClock.check, w.t.auths[s.id].expiresAt)
    && (w.t.auths[s.id].status == Pending || w.t.auths[s.id].status == SlowDown)
    && s.answer.TokenWithEmails? && PrimaryEmail(s.answer.emails) != ""
    && IsEmailAllowed(w.cfg, PrimaryEmail(s.answer.emails))
  }

  /** What a poll that pairs no device makes of the row of its transaction. */
  function MarkedRow(row: AuthRow, cfg: Config, s: Step): AuthRow
    requires s.PollStep?
  {
    var denied := if WriteStatus in s.faults then row else row.(status := Denied);
    if row.consumedAt.Some? then row
    else if Expired(s.pollClock.check, row.expiresAt) then
      (if WriteStatus in s.faults then row else row.(status := ExpiredStatus))
    else if row.status != Pending && row.status != SlowDown then row
    else
      match s.answer
      case AskedToSlowDown(interval) =>
        if interval > row.pollAfter && WritePollAfter !in s.faults then row.(pollAfter := interval, status := SlowDown)
        else row
      case TokenWithoutEmails => denied
      case TokenWithEmails(emails) =>
        if PrimaryEmail(emails) == "" then denied
        else if WriteStatus in s.faults || IsEmailAllowed(cfg, PrimaryEmail(emails)) then row
        else row.(status := Forbidden)
      case _ => row
  }

  lemma UnapprovableEffect(w: World, s: Step)
    requires s.PollStep? && !Approvable(w, s)
    requires s.id in w.t.auths && w.t.auths[s.id].status == Approved ==> w.t.auths[s.id].consumedAt.Some?
    ensures var (t1, reply) := PollAuthorization(w.t, w.cfg, s.id, s.answer, s.mint, s.pollClock, s.faults);
            && t1 == w.t.(auths := if ReadAuth in s.faults || s.id !in w.t.auths then w.t.auths
                                   else w.t.auths[s.id := MarkedRow(w.t.auths[s.id], w.cfg, s)])
            && !reply.ApprovedWith?
  {
    if s.id in w.t.auths {
      assert w.t.auths[s.id := w.t.auths[s.id]] == w.t.auths;
    }
  }

  lemma MarkedRowAdvances(row: AuthRow, cfg: Config, s: Step)
    requires s.PollStep? && (row.status == Approved ==> row.consumedAt.Some?)
    ensures Advances(row, MarkedRow(row, cfg, s))
  {
  }

  lemma PollApproves(w: World, s: Step)
    requires s.PollStep? && Approvable(w, s)
    ensures PollAuthorization(w.t, w.cfg, s.id, s.answer, s.mint, s.pollClock, s.faults)
         == Approve(w.t, w.cfg, s.id, PrimaryEmail(s.answer.emails), s.mint, s.pollClock, s.faults)
  {
  }

  /** A new device, with or without its two sessions. */
  ghost predicate Pairs(w: World, s: Step, t1: Tables)
    requires s.PollStep? && s.answer.TokenWithEmails?
  {
    && t1.devices == w.t.devices[s.mint.deviceId := PairedDevice(s)]
    && (|| t1.access == w.t.access
        || t1.access == w.t.access[s.mint.accessId := NewAccess(w, s.mint, s.mint.deviceId, s.pollClock.issue)])
    && (t1.refresh == w.t.refresh || t1.refresh == w.t.refresh[s.mint.refreshId := PairedRefresh(w, s)])
  }

  /**
   * A poll moves only the row of its transaction, forward; it leaves the session tables
   * alone unless it is approvable, and then it pairs at most one new device.
   */
  lemma PollShape(w: World, s: Step)
    requires s.PollStep? && Inv(w) && Enabled(w, s)
    ensures OnlyAdvances(w.t.auths, Next(w, s).t.auths, s.id)
    ensures || (Next(w, s).t == w.t.(auths := Next(w, s).t.auths) && !Respond(w, s).ApprovedWith?)
            || (Approvable(w, s) && Pairs(w, s, Next(w, s).t))
  {
    if Approvable(w, s) {
      PollApproves(w, s);
      ApproveEffect(w, s);
      ConsumptionAdvances(w.t.auths, s, PrimaryEmail(s.answer.emails));
    } else {
      UnapprovableEffect(w, s);
      if s.id in w.t.auths { MarkedRowAdvances(w.t.auths[s.id], w.cfg, s); }
    }
  }

  /** The stored row of the presented refresh token passes every test of the refresh handler. */
  ghost predicate Refreshable(w: World, s: Step)
    requires s.RefreshStep?
  {
    var found := FindRefresh(w.t.refresh, HashSecret(w.cfg, s.token));
    && s.token != "" && ReadRefresh !in s.faults && found.Some?
    && var row := w.t.refresh[found.value];
       && row.revokedAt.None? && !Expired(s.refreshClock.check, row.expiresAt) && row.rotatedAt.None?
       && ReadDevice !in s.faults && row.device in w.t.devices && w.t.devices[row.device].revokedAt.None?
  }

  lemma RefusedRefresh(w: World, s: Step)
    requires s.RefreshStep? && !Refreshable(w, s)
    ensures Perform(w, s).0 == w.t && !Respond(w, s).RefreshedWith?
  {
  }

  predicate AddsAccess(faults: set<Point>) {
    !(MakeTokens in faults || MakeAccessId in faults || MakeRefreshId in faults || WriteAccess in faults)
  }

  /** An accepted refresh adds an access session, then rotates; a fault may stop it before either write. */
  lemma RefreshShape(w: World, s: Step)
    requires s.RefreshStep? && Refreshable(w, s) && Inv(w) && Enabled(w, s)
    ensures var t, t1, m, c := w.t, Perform(w, s).0, s.mint, s.refreshClock;
            var used := FindRefresh(t.refresh, HashSecret(w.cfg, s.token)).value;
            && t1.auths == t.auths && t1.devices == t.devices
            && t1.access == (
                 if AddsAccess(s.faults) then t.access[m.accessId := NewAccess(w, m, t.refresh[used].device, c.issue)]
                 else t.access)
            && t1.refresh == (if AddsAccess(s.faults) && Rotation !in s.faults
                 then Rotated(t.refresh, used, m.refreshId, HashSecret(w.cfg, m.refreshToken),
                              Unix(c.rotate), Unix(c.issue + w.cfg.refreshTTL))
                 else t.refresh)
            && Respond(w, s) == (if AddsAccess(s.faults) && Rotation !in s.faults
                 then RefreshedWith(m.accessToken, m.refreshToken,
                                    Unix(c.issue + w.cfg.accessTTL), Unix(c.issue + w.cfg.refreshTTL))
                 else ServerError)
  {
    var m, c := s.mint, s.refreshClock;
    var used := FindRefresh(w.t.refresh, HashSecret(w.cfg, s.token)).value;
    var t1 := AddAccess(w.t, m.accessId, w.t.refresh[used].device, HashSecret(w.cfg, m.accessToken), Unix(c.issue),
                        Unix(c.issue + w.cfg.accessTTL));
    if t1.Some? {
      RotateEffect(t1.value, used, m.refreshId, HashSecret(w.cfg, m.refreshToken), Unix(c.rotate),
                   Unix(c.issue + w.cfg.refreshTTL));
    }
  }

  /** The bearer token names an access row every test of the proxy lets through, up to the allow list. */
  ghost predicate Admissible(w: World, s: Step)
    requires s.ProxyStep?
  {
    var found := FindAccess(w.t.access, HashSecret(w.cfg, s.token));
    && ReadAccess !in s.faults && found.Some?
    && var row := w.t.access[found.value];
       && row.revokedAt.None? && !Expired(s.proxyClock.check, row.expiresAt)
       && ReadDevice !in s.faults && row.device in w.t.devices && w.t.devices[row.device].revokedAt.None?
  }

  function Revoked(t: Tables, device: Id, now: Seconds): Tables {
    t.(refresh := WithRefreshRevoked(t.refresh, device, now), access := WithAccessRevoked(t.access, device, now))
  }

  lemma ProxyShape(w: World, s: Step)
    requires s.ProxyStep?
    ensures !Admissible(w, s) ==> Perform(w, s).0 == w.t && !Respond(w, s).Forwarded?
    ensures Admissible(w, s) ==>
              var device := w.t.access[FindAccess(w.t.access, HashSecret(w.cfg, s.token)).value].device;
              if IsEmailAllowed(w.cfg, w.t.devices[device].email) then
                && Respond(w, s) == Forwarded(device, w.t.devices[device].email)
                && Perform(w, s).0 == w.t.(devices :=
                                             if WriteLastSeen in s.faults then w.t.devices
                                             else WithLastSeen(w.t.devices, device, Unix(s.proxyClock.write)))
              else
                && Respond(w, s) == Unauthorized
                && Perform(w, s).0 ==
                   if Revocation in s.faults then w.t else Revoked(w.t, device, Unix(s.proxyClock.write))
  {
    if Admissible(w, s) {
      RevokeAllEffect(w.t, w.t.access[FindAccess(w.t.access, HashSecret(w.cfg, s.token)).value].device,
                      Unix(s.proxyClock.write));
    }
  }

  lemma RevokeShape(w: World, s: Step)
    requires s.RevokeStep?
    ensures var found := FindAccess(w.t.access, HashSecret(w.cfg, s.token));
            Perform(w, s).0 == if found.Some? && ReadAccess !in s.faults && Revocation !in s.faults
                               then Revoked(w.t, w.t.access[found.value].device, Unix(s.now)) else w.t
    ensures Respond(w, s) == NoContent || Respond(w, s) == ServerError
    ensures ReadAccess !in s.faults && Revocation !in s.faults ==> Respond(w, s) == NoContent
  {
    var found := FindAccess(w.t.access, HashSecret(w.cfg, s.token));
    if found.Some? {
      RevokeAllEffect(w.t, w.t.access[found.value].device, Unix(s.now));
    }
  }

  // ----- preservation, table by table

  lemma FirstRefreshKeepsOk(rows: map<Id, RefreshRow>, id: Id, row: RefreshRow, ids: set<Id>, hashes: set<Digest>,
                            moreIds: set<Id>, moreHashes: set<Digest>)
    requires RefreshOk(rows, ids, hashes) && ids <= moreIds && hashes <= moreHashes
    requires id in moreIds && id !in ids && row.hash in moreHashes && row.hash !in hashes
    requires row.parent.None? && forall i :: i in rows ==> rows[i].device != row.device
    ensures RefreshOk(rows[id := row], moreIds, moreHashes)
  {
    var after := rows[id := row];
    assert forall i :: Live(after, i) && i != id ==> Live(rows, i);
  }

  lemma RotationKeepsOk(rows: map<Id, RefreshRow>, used: Id, id: Id, h: Digest, now: Seconds, until: Seconds,
                        ids: set<Id>, hashes: set<Digest>, moreIds: set<Id>, moreHashes: set<Digest>)
    requires RefreshOk(rows, ids, hashes) && ids <= moreIds && hashes <= moreHashes
    requires id in moreIds && id !in ids && h in moreHashes && h !in hashes && Live(rows, used)
    ensures RefreshOk(Rotated(rows, used, id, h, now, until), moreIds, moreHashes)
  {
    var after := Rotated(rows, used, id, h, now, until);
    assert forall i :: Live(after, i) && i != id ==> Live(rows, i) && i != used;
    assert forall i :: i in after && i != id ==>
        && i in rows && after[i].hash == rows[i].hash
        && after[i].parent == rows[i].parent && after[i].device == rows[i].device;
    assert forall i :: i in rows && rows[i].rotatedAt.Some? ==> after[i].rotatedAt.Some?;
  }

  /** Fewer rows, or more marks on them, break nothing. */
  lemma WeakerRowsKeepOk(rows: map<Id, RefreshRow>, after: map<Id, RefreshRow>, ids: set<Id>, hashes: set<Digest>)
    requires RefreshOk(rows, ids, hashes)
    requires forall i :: i in after ==> i in rows && SameUpToMarks(rows[i], after[i])
    ensures RefreshOk(after, ids, hashes)
  {
    assert forall i :: Live(after, i) ==> Live(rows, i);
  }

  /** Everything but the two marks is fixed at insertion, and marks stay. */
  predicate SameUpToMarks(a: RefreshRow, b: RefreshRow) {
    && a.device == b.device && a.hash == b.hash && a.parent == b.parent
    && a.issuedAt == b.issuedAt && a.expiresAt == b.expiresAt
    && (a.rotatedAt.Some? ==> b.rotatedAt.Some?) && (a.revokedAt.Some? ==> b.revokedAt.Some?)
  }

  lemma PollKeepsInv(w: World, s: Step)
    requires Inv(w) && Enabled(w, s) && s.PollStep?
    ensures Inv(Next(w, s))
  {
    PollShape(w, s);
    var w1 := Next(w, s);
    if w1.t.refresh != w.t.refresh {
      FirstRefreshKeepsOk(w.t.refresh, s.mint.refreshId, PairedRefresh(w, s), w.ids, w.hashes, w1.ids, w1.hashes);
    }
  }

  lemma RefreshKeepsInv(w: World, s: Step)
    requires Inv(w) && Enabled(w, s) && s.RefreshStep?
    ensures Inv(Next(w, s))
  {
    var w1 := Next(w, s);
    if Refreshable(w, s) {
      RefreshShape(w, s);
      if Respond(w, s).RefreshedWith? {
        var used := FindRefresh(w.t.refresh, HashSecret(w.cfg, s.token)).value;
        RotationKeepsOk(w.t.refresh, used, s.mint.refreshId, HashSecret(w.cfg, s.mint.refreshToken),
                        Unix(s.refreshClock.rotate), Unix(s.refreshClock.issue + w.cfg.refreshTTL),
                        w.ids, w.hashes, w1.ids, w1.hashes);
      }
    } else {
      RefusedRefresh(w, s);
    }
  }

  lemma RevocationKeepsInv(w: World, s: Step)
    requires Inv(w) && Enabled(w, s) && (s.RevokeStep? || s.ProxyStep?)
    ensures Inv(Next(w, s))
  {
    var w1 := Next(w, s);
    assert w1.ids == w.ids && w1.hashes == w.hashes;
    if s.RevokeStep? { RevokeShape(w, s); } else { ProxyShape(w, s); }
    WeakerRowsKeepOk(w.t.refresh, w1.t.refresh, w.ids, w.hashes);
  }

  /** Every enabled step keeps the invariant, whatever fails inside it. */
  lemma NextKeepsInv(w: World, s: Step)
    requires Inv(w) && Enabled(w, s)
    ensures Inv(Next(w, s))
  {
    match s
    case PollStep(_, _, _, _, _) => PollKeepsInv(w, s);
    case RefreshStep(_, _, _, _) => RefreshKeepsInv(w, s);
    case RevokeStep(_, _, _) => RevocationKeepsInv(w, s);
    case ProxyStep(_, _, _) => RevocationKeepsInv(w, s);
    case CleanupStep(_, _) =>
      WeakerRowsKeepOk(w.t.refresh, Next(w, s).t.refresh, w.ids, w.hashes);
    case CreateStep(_, _, _, _, _) =>
    case RestartStep(_) =>
  }

  /** Every world of every run satisfies the invariant. */
  lemma RunsKeepInv(ws: seq<World>, steps: seq<Step>, n: nat)
    requires IsRun(ws, steps) && Inv(ws[0]) && n < |ws|
    ensures Inv(ws[n])
  {
    forall v, s | Inv(v) && Enabled(v, s)
      ensures Inv(Next(v, s))
    {
      NextKeepsInv(v, s);
    }
    Preserved(ws, steps, 0, n, v => Inv(v));
  }
}
