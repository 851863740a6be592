/**
 * internal/handler and authenticateDevice of internal/proxy as they run: lookups and
 * writes in the order of the source, with its early returns. Each method is proved to
 * leave the tables and to send the reply of its function in Broker.dfy.
 */
module HandlerFile {
  import opened Base
  import opened Tables
  import opened Broker
  import opened DatabaseFile
  import Emails

  /** The token named a row that could be exchanged, and that row is spent now. */
  ghost predicate Exchanged(before: map<Id, RefreshRow>, after: map<Id, RefreshRow>, h: Digest) {
    exists i :: i in before && i in after && SpentAt(before[i], after[i], h)
  }

  predicate SpentAt(before: RefreshRow, after: RefreshRow, h: Digest) {
    before.hash == h && before.rotatedAt.None? && before.revokedAt.None? && after.rotatedAt.Some?
  }

  /** Every access session of the device that the token names is revoked. */
  ghost predicate DeviceRevoked(before: map<Id, AccessRow>, after: map<Id, AccessRow>, h: Digest) {
    forall i, j :: i in before && before[i].hash == h && j in after && after[j].device == before[i].device ==>
      after[j].revokedAt.Some?
  }

  class Handler {
    const config: Config
    const db: Database
    var allowedEmails: seq<string>

    /** The parsed allow list is that of the configuration. */
    ghost predicate Valid()
      reads this
    {
      allowedEmails == Emails.Entries(config.lower, Emails.Split(config.allowList))
    }

    /** Random tokens keep the stored digests apart; every run preserves this. */
    ghost predicate Ready()
      reads this, db
    {
      Valid() && RefreshHashesUnique(db.refresh) && AccessHashesUnique(db.access)
    }

    constructor (config: Config, db: Database)
      ensures Valid() && this.config == config && this.db == db
    {
      this.config := config;
      this.db := db;
      new;
      allowedEmails := Emails.ParseEmails(config.lower, config.allowList);
    }

    method IsAllowed(email: string) returns (allowed: bool)
      requires Valid()
      ensures allowed == IsEmailAllowed(config, email)
      ensures allowed <==> Emails.Lists(config.lower, config.allowList, email)
    {
      Emails.AllowListMeansListed(config.lower, config.allowList, email);
      allowed := Emails.ScanAllowed(config.lower, allowedEmails, email);
    }

    method HandleCreateDeviceAuthorization(id: Id, interval: int, expiresIn: int, now: Instant, faults: set<Point>)
      returns (reply: Reply)
      modifies db
      ensures (db.Contents(), reply) == CreateAuthorization(old(db.Contents()), id, interval, expiresIn, now, faults)
    {
      var expiresAt := now + expiresIn * 1_000_000_000;
      var ok := db.CreateDeviceAuthorization(id, interval, Unix(expiresAt), WriteAuth in faults);
      if !ok {
        return ServerError;
      }
      return Created(id);
    }

    method FindPrimaryEmail(emails: seq<GitHubEmail>) returns (primaryEmail: string)
      ensures primaryEmail == PrimaryEmail(emails)
      ensures forall k :: 0 <= k < |emails| && emails[k].primary && emails[k].verified
                          && (forall l :: 0 <= l < k ==> !(emails[l].primary && emails[l].verified)) ==>
                primaryEmail == emails[k].email
      ensures (forall k :: 0 <= k < |emails| ==> !(emails[k].primary && emails[k].verified)) ==> primaryEmail == ""
    {
      primaryEmail := "";
      for i := 0 to |emails|
        invariant primaryEmail == "" && PrimaryEmail(emails) == PrimaryEmail(emails[i..])
        invariant forall l :: 0 <= l < i ==> !(emails[l].primary && emails[l].verified)
      {
        if emails[i].primary && emails[i].verified {
          return emails[i].email;
        }
        assert emails[i..][1..] == emails[i + 1..];
      }
    }

    method HandleGetDeviceAuthorization(id: Id, answer: GitHubAnswer, m: Mint, clock: PollClock, faults: set<Point>)
      returns (reply: Reply)
      requires Valid()
      modifies db
      ensures (db.Contents(), reply) == PollAuthorization(old(db.Contents()), config, id, answer, m, clock, faults)
      ensures forall i :: i in old(db.auths) && (i != id || old(db.auths)[i].consumedAt.Some?) ==>
                i in db.auths && db.auths[i] == old(db.auths)[i]
      ensures !reply.ApprovedWith? ==> db.refresh == old(db.refresh)
    {
      if ReadAuth in faults {
        return ServerError;
      }
      var found := db.GetDeviceAuthorization(id);
      if found.None? {
        return NotFound;
      }
      var auth := found.value;
      if auth.consumedAt.Some? {
        return AlreadyConsumed;
      }
      if Expired(clock.check, auth.expiresAt) {
        db.UpdateDeviceAuthorizationStatus(id, ExpiredStatus, "", clock.check, WriteStatus in faults);
        return StatusIs(ExpiredStatus);
      }
      if auth.status == Denied || auth.status == Forbidden {
        return StatusIs(auth.status);
      }
      if auth.status == Pending || auth.status == SlowDown {
        match answer {
          case Undecryptable => return ServerError;
          case PollFailed => return StatusIs(auth.status);
          case AskedToSlowDown(interval) =>
            if interval > auth.pollAfter {
              db.UpdateDeviceAuthorizationPollInterval(id, interval, WritePollAfter in faults);
            }
            return StatusIs(SlowDown);
          case TokenWithoutEmails =>
            db.UpdateDeviceAuthorizationStatus(id, Denied, "", clock.status, WriteStatus in faults);
            return StatusIs(Denied);
          case TokenWithEmails(emails) =>
            var email := FindPrimaryEmail(emails);
            if email == "" {
              db.UpdateDeviceAuthorizationStatus(id, Denied, "", clock.status, WriteStatus in faults);
              return StatusIs(Denied);
            }
            var allowed := IsAllowed(email);
            if !allowed {
              db.UpdateDeviceAuthorizationStatus(id, Forbidden, email, clock.status, WriteStatus in faults);
              return StatusIs(Forbidden);
            }
            reply := PairDevice(id, email, m, clock, faults);
            return;
          case AuthorizationPending =>
        }
      }
      return StatusIs(auth.status);
    }

    method PairDevice(id: Id, email: string, m: Mint, clock: PollClock, faults: set<Point>) returns (reply: Reply)
      modifies db
      ensures (db.Contents(), reply) == Approve(old(db.Contents()), config, id, email, m, clock, faults)
      ensures reply.ApprovedWith? <==> db.refresh != old(db.refresh)
      ensures !reply.ApprovedWith? ==> db.auths == old(db.auths)
      ensures db.auths.Keys == old(db.auths).Keys
      ensures forall i :: i in db.auths && i != id ==> db.auths[i] == old(db.auths)[i]
    {
      if MakeDeviceId in faults {
        return ServerError;
      }
      var ok := db.CreateMobileDevice(m.deviceId, email, clock.device, WriteDevice in faults);
      if !ok {
        return ServerError;
      }
      if MakeTokens in faults {
        return ServerError;
      }
      var accessExpiresAt := clock.issue + config.accessTTL;
      var refreshExpiresAt := clock.issue + config.refreshTTL;
      if MakeAccessId in faults {
        return ServerError;
      }
      ok := db.CreateAccessSession(m.accessId, m.deviceId, HashSecret(config, m.accessToken), clock.issue,
                                   accessExpiresAt, WriteAccess in faults);
      if !ok {
        return ServerError;
      }
      if MakeRefreshId in faults {
        return ServerError;
      }
      ok := db.CreateRefreshSession(m.refreshId, m.deviceId, HashSecret(config, m.refreshToken), clock.issue,
                                    refreshExpiresAt, WriteRefresh in faults);
      if !ok {
        return ServerError;
      }
      db.UpdateDeviceAuthorizationStatus(id, Approved, email, clock.status, WriteStatus in faults);
      db.MarkDeviceAuthorizationConsumed(id, clock.consumed, WriteConsumed in faults);
      return ApprovedWith(email, m.accessToken, m.refreshToken, Unix(accessExpiresAt), Unix(refreshExpiresAt));
    }

    method HandleRefreshSession(token: string, m: Mint, clock: RefreshClock, faults: set<Point>) returns (reply: Reply)
      requires Ready()
      modifies db
      ensures (db.Contents(), reply) == RefreshSession(old(db.Contents()), config, token, m, clock, faults)
      ensures reply.RefreshedWith? ==> Exchanged(old(db.refresh), db.refresh, HashSecret(config, token))
      ensures !reply.RefreshedWith? ==> db.refresh == old(db.refresh)
    {
      if token == "" {
        return BadRequest;
      }
      if ReadRefresh in faults {
        return ServerError;
      }
      var tokenHash := HashSecret(config, token);
      var found := db.GetRefreshSession(tokenHash);
      if found.None? {
        return Unauthorized;
      }
      RefreshLookupIs(db.refresh, found.value);
      var session := db.refresh[found.value];
      if session.revokedAt.Some? {
        return Unauthorized;
      }
      if Expired(clock.check, session.expiresAt) {
        return Unauthorized;
      }
      if session.rotatedAt.Some? {
        return Unauthorized;
      }
      if ReadDevice in faults {
        return ServerError;
      }
      var device := db.GetMobileDevice(session.device);
      if device.None? || device.value.revokedAt.Some? {
        return Unauthorized;
      }
      if MakeTokens in faults || MakeAccessId in faults || MakeRefreshId in faults {
        return ServerError;
      }
      var newAccessExpiresAt := clock.issue + config.accessTTL;
      var newRefreshExpiresAt := clock.issue + config.refreshTTL;
      var ok := db.CreateAccessSession(m.accessId, session.device, HashSecret(config, m.accessToken), clock.issue,
                                       newAccessExpiresAt, WriteAccess in faults);
      if !ok {
        return ServerError;
      }
      ok := db.RotateRefreshSession(found.value, tokenHash, m.refreshId, HashSecret(config, m.refreshToken),
                                    clock.rotate, newRefreshExpiresAt, if Rotation in faults then 0 else 4);
      if !ok {
        return ServerError;
      }
      assert SpentAt(session, db.refresh[found.value], tokenHash);
      return RefreshedWith(m.accessToken, m.refreshToken, Unix(newAccessExpiresAt), Unix(newRefreshExpiresAt));
    }

    method HandleRevokeCurrentSession(token: string, now: Instant, faults: set<Point>) returns (reply: Reply)
      requires Ready()
      modifies db
      ensures (db.Contents(), reply) == RevokeCurrentSession(old(db.Contents()), config, token, now, faults)
      ensures reply == NoContent ==> DeviceRevoked(old(db.access), db.access, HashSecret(config, token))
    {
      if ReadAccess in faults {
        return ServerError;
      }
      var found := db.GetAccessSession(HashSecret(config, token));
      if found.None? {
        return NoContent;
      }
      AccessLookupIs(db.access, found.value);
      var device := db.access[found.value].device;
      ExecAllTwo(db.Contents(), RevokeRefreshOf(device, Unix(now)), RevokeAccessOf(device, Unix(now)));
      var ok := db.RevokeAllSessionsForDevice(device, now, if Revocation in faults then 0 else 4);
      if !ok {
        return ServerError;
      }
      return NoContent;
    }

    method HandleProxiedRequest(token: string, clock: ProxyClock, faults: set<Point>) returns (reply: Reply)
      requires Ready()
      modifies db
      ensures (db.Contents(), reply) == AuthenticateDevice(old(db.Contents()), config, token, clock, faults)
      ensures reply.Forwarded? ==>
                db.access == old(db.access) && db.refresh == old(db.refresh) && IsEmailAllowed(config, reply.email)
      ensures reply.Forwarded? ==>
                && reply.device in old(db.devices)
                && db.devices
                == if WriteLastSeen in faults then old(db.devices)
                   else old(db.devices)[reply.device := old(db.devices)[reply.device].(lastSeenAt :=
                                                                                      clock.write / 1_000_000_000)]
    {
      if ReadAccess in faults {
        return ServerError;
      }
      var found := db.GetAccessSession(HashSecret(config, token));
      if found.None? {
        return Unauthorized;
      }
      AccessLookupIs(db.access, found.value);
      var session := db.access[found.value];
      if session.revokedAt.Some? {
        return Unauthorized;
      }
      if Expired(clock.check, session.expiresAt) {
        return Unauthorized;
      }
      if ReadDevice in faults {
        return ServerError;
      }
      var device := db.GetMobileDevice(session.device);
      if device.None? || device.value.revokedAt.Some? {
        return Unauthorized;
      }
      var allowed := IsAllowed(device.value.email);
      if !allowed {
        var _ := db.RevokeAllSessionsForDevice(session.device, clock.write, if Revocation in faults then 0 else 4);
        return Unauthorized;
      }
      db.UpdateMobileDeviceLastSeen(session.device, clock.write, WriteLastSeen in faults);
      return Forwarded(session.device, device.value.email);
    }
  }
}
