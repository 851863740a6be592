/**
 * internal/db as it runs: an object whose methods change its four tables. Each method is
 * proved against the statement or the transaction of Tables.dfy it stands for. The flag
 * `fails`, or the position `failAt`, lets the engine refuse a statement at any point.
 */
module DatabaseFile {
  import opened Base
  import opened Tables

  class Database {
    var auths: map<Id, AuthRow>
    var devices: map<Id, Device>
    var refresh: map<Id, RefreshRow>
    var access: map<Id, AccessRow>

    function Contents(): Tables
      reads this
    {
      Tables(auths, devices, refresh, access)
    }

    constructor ()
      ensures Contents() == EMPTY
    {
      auths, devices, refresh, access := map[], map[], map[], map[];
    }

    // ----- device_auth.go

    method CreateDeviceAuthorization(id: Id, pollAfter: int, expiresAt: Seconds, fails: bool) returns (ok: bool)
      modifies this`auths
      ensures ok <==> !fails && id !in old(auths)
      ensures Contents() == if ok then AddAuth(old(Contents()), id, pollAfter, expiresAt).value else old(Contents())
      ensures auths == if ok then old(auths)[id := AuthRow(Pending, None, None, pollAfter, expiresAt)] else old(auths)
    {
      ok := !fails && id !in auths;
      if ok {
        auths := auths[id := AuthRow(Pending, None, None, pollAfter, expiresAt)];
      }
    }

    method GetDeviceAuthorization(id: Id) returns (row: Option<AuthRow>)
      ensures row == if id in auths then Some(auths[id]) else None
    {
      if id in auths {
        row := Some(auths[id]);
      } else {
        row := None;
      }
    }

    method UpdateDeviceAuthorizationStatus(id: Id, status: Status, approvedEmail: string, now: Instant, fails: bool)
      modifies this`auths
      ensures auths == if fails then old(auths) else WithStatus(old(auths), id, status, approvedEmail, Unix(now))
      ensures status != Approved ==>
                forall i :: i in auths ==> i in old(auths) && auths[i].consumedAt == old(auths)[i].consumedAt
      ensures auths.Keys == old(auths).Keys && forall i :: i in auths && i != id ==> auths[i] == old(auths)[i]
      ensures id in old(auths) ==>
                auths[id] == if fails then old(auths)[id]
                             else if status != Approved then old(auths)[id].(status := status)
                             else old(auths)[id].(status := status, approvedEmail := Some(approvedEmail),
                                                  consumedAt := Some(now / 1_000_000_000))
    {
      if fails || id !in auths {
        return;
      }
      if status == Approved {
        auths := auths[id := auths[id].(status := status, approvedEmail := Some(approvedEmail),
                                        consumedAt := Some(Unix(now)))];
        return;
      }
      auths := auths[id := auths[id].(status := status)];
    }

    method UpdateDeviceAuthorizationPollInterval(id: Id, newInterval: int, fails: bool)
      modifies this`auths
      ensures auths == if fails then old(auths) else WithPollAfter(old(auths), id, newInterval)
      ensures auths.Keys == old(auths).Keys && forall i :: i in auths && i != id ==> auths[i] == old(auths)[i]
      ensures id in old(auths) ==>
                auths[id] == if fails then old(auths)[id]
                             else old(auths)[id].(pollAfter := newInterval, status := SlowDown)
    {
      if !fails && id in auths {
        auths := auths[id := auths[id].(pollAfter := newInterval, status := SlowDown)];
      }
    }

    method MarkDeviceAuthorizationConsumed(id: Id, now: Instant, fails: bool)
      modifies this`auths
      ensures auths == if fails then old(auths) else WithConsumed(old(auths), id, Unix(now))
      ensures auths.Keys == old(auths).Keys && forall i :: i in auths && i != id ==> auths[i] == old(auths)[i]
      ensures id in old(auths) ==>
                auths[id] == if fails then old(auths)[id]
                             else old(auths)[id].(consumedAt := Some(now / 1_000_000_000))
    {
      if !fails && id in auths {
        auths := auths[id := auths[id].(consumedAt := Some(Unix(now)))];
      }
    }

    // ----- sessions.go

    method CreateMobileDevice(id: Id, email: string, now: Instant, fails: bool) returns (ok: bool)
      modifies this`devices
      ensures ok <==> !fails && id !in old(devices)
      ensures Contents() == if ok then AddDevice(old(Contents()), id, email, Unix(now)).value else old(Contents())
      ensures devices == if ok then old(devices)[id := Device(email, now / 1_000_000_000, now / 1_000_000_000, None)]
                         else old(devices)
    {
      ok := !fails && id !in devices;
      if ok {
        devices := devices[id := Device(email, Unix(now), Unix(now), None)];
      }
    }

    method GetMobileDevice(id: Id) returns (row: Option<Device>)
      ensures row == if id in devices then Some(devices[id]) else None
    {
      if id in devices {
        row := Some(devices[id]);
      } else {
        row := None;
      }
    }

    method UpdateMobileDeviceLastSeen(id: Id, now: Instant, fails: bool)
      modifies this`devices
      ensures devices == if fails then old(devices) else WithLastSeen(old(devices), id, Unix(now))
      ensures devices.Keys == old(devices).Keys && forall i :: i in devices && i != id ==> devices[i] == old(devices)[i]
      ensures id in old(devices) ==>
                devices[id] == if fails then old(devices)[id] else old(devices)[id].(lastSeenAt := now / 1_000_000_000)
    {
      if !fails && id in devices {
        devices := devices[id := devices[id].(lastSeenAt := Unix(now))];
      }
    }

    method CreateRefreshSession(id: Id, device: Id, hash: Digest, issuedAt: Instant, expiresAt: Instant, fails: bool)
      returns (ok: bool)
      modifies this`refresh
      ensures ok <==> !fails && id !in old(refresh)
      ensures Contents()
            == if ok then AddRefresh(old(Contents()), id, device, hash, Unix(issuedAt), Unix(expiresAt)).value
               else old(Contents())
      ensures refresh
            == if ok then old(refresh)[id := RefreshRow(device, hash, None, issuedAt / 1_000_000_000,
                                                        expiresAt / 1_000_000_000, None, None)]
               else old(refresh)
    {
      ok := !fails && id !in refresh;
      if ok {
        refresh := refresh[id := RefreshRow(device, hash, None, Unix(issuedAt), Unix(expiresAt), None, None)];
      }
    }

    /** Some row with the hash; which one is the engine's choice. */
    method GetRefreshSession(hash: Digest) returns (found: Option<Id>)
      ensures found.Some? ==> found.value in refresh && refresh[found.value].hash == hash
      ensures found.None? ==> forall i :: i in refresh ==> refresh[i].hash != hash
    {
      if exists i :: i in refresh && refresh[i].hash == hash {
        var i :| i in refresh && refresh[i].hash == hash;
        found := Some(i);
      } else {
        found := None;
      }
    }

    method CreateAccessSession(id: Id, device: Id, hash: Digest, issuedAt: Instant, expiresAt: Instant, fails: bool)
      returns (ok: bool)
      modifies this`access
      ensures ok <==> !fails && id !in old(access)
      ensures Contents()
            == if ok then AddAccess(old(Contents()), id, device, hash, Unix(issuedAt), Unix(expiresAt)).value
               else old(Contents())
      ensures access
            == if ok then old(access)[id := AccessRow(device, hash, issuedAt / 1_000_000_000,
                                                      expiresAt / 1_000_000_000, None)]
               else old(access)
    {
      ok := !fails && id !in access;
      if ok {
        access := access[id := AccessRow(device, hash, Unix(issuedAt), Unix(expiresAt), None)];
      }
    }

    method GetAccessSession(hash: Digest) returns (found: Option<Id>)
      ensures found.Some? ==> found.value in access && access[found.value].hash == hash
      ensures found.None? ==> forall i :: i in access ==> access[i].hash != hash
    {
      if exists i :: i in access && access[i].hash == hash {
        var i :| i in access && access[i].hash == hash;
        found := Some(i);
      } else {
        found := None;
      }
    }

    /**
     * One transaction: BEGIN, two statements, COMMIT. Whatever step is refused, by the
     * engine (`failAt`) or by a constraint, the deferred rollback restores the tables.
     */
    method RotateRefreshSession(oldId: Id, oldHash: Digest, newId: Id, newHash: Digest, now: Instant,
                                newExpiresAt: Instant, failAt: nat)
      returns (ok: bool)
      modifies this`refresh
      ensures ok <==>
                && failAt > 3 && newId !in old(refresh)
                && exists i :: i in old(refresh) && old(refresh)[i].hash == oldHash
      ensures ok ==>
                exists i :: i in old(refresh) && old(refresh)[i].hash == oldHash
                  && refresh == (if oldId in old(refresh)
                                 then old(refresh)[oldId := old(refresh)[oldId].(rotatedAt :=
                                                                                 Some(now / 1_000_000_000))]
                                 else old(refresh))
                                [newId := RefreshRow(old(refresh)[i].device, newHash, Some(oldHash),
                                                     now / 1_000_000_000, newExpiresAt / 1_000_000_000, None, None)]
      ensures !ok ==> Contents() == old(Contents())
      ensures RefreshHashesUnique(old(refresh)) ==>
                var after := ExecAll(old(Contents()),
                                     RotateTx(oldId, oldHash, newId, newHash, Unix(now), Unix(newExpiresAt)));
                (ok <==> failAt > 3 && after.Some?) && (ok ==> after == Some(Contents()))
    {
      ExecAllTwo(Contents(), MarkRotated(oldId, Unix(now)),
                 InsertSuccessor(newId, oldHash, newHash, Unix(now), Unix(newExpiresAt)));
      if failAt == 0 {
        return false;
      }
      var before := refresh;
      if failAt == 1 {
        return false;
      }
      if oldId in refresh {
        refresh := refresh[oldId := refresh[oldId].(rotatedAt := Some(Unix(now)))];
      }
      assert forall j :: j in before ==> j in refresh && refresh[j].hash == before[j].hash;
      if failAt == 2 || newId in refresh || !(exists i :: i in refresh && refresh[i].hash == oldHash) {
        refresh := before;
        return false;
      }
      var i :| i in refresh && refresh[i].hash == oldHash;
      assert i in before && before[i].hash == oldHash && before[i].device == refresh[i].device;
      var device := refresh[i].device;
      var row := RefreshRow(device, newHash, Some(oldHash), Unix(now), Unix(newExpiresAt), None, None);
      refresh := refresh[newId := row];
      if failAt == 3 {
        refresh := before;
        return false;
      }
      assert i in before && before[i].hash == oldHash && before[i].device == device;
      return true;
    }

    method RevokeAllSessionsForDevice(device: Id, now: Instant, failAt: nat) returns (ok: bool)
      modifies this`refresh, this`access
      ensures ok <==> failAt > 3
      ensures ExecAll(old(Contents()), RevokeAllTx(device, Unix(now))).Some?
      ensures Contents()
            == if ok then ExecAll(old(Contents()), RevokeAllTx(device, Unix(now))).value else old(Contents())
      ensures refresh.Keys == old(refresh).Keys && access.Keys == old(access).Keys
      ensures forall i :: i in refresh ==>
                refresh[i] == if ok && old(refresh)[i].device == device
                              then old(refresh)[i].(revokedAt := Some(now / 1_000_000_000)) else old(refresh)[i]
      ensures forall i :: i in access ==>
                access[i] == if ok && old(access)[i].device == device
                             then old(access)[i].(revokedAt := Some(now / 1_000_000_000)) else old(access)[i]
    {
      ExecAllTwo(Contents(), RevokeRefreshOf(device, Unix(now)), RevokeAccessOf(device, Unix(now)));
      if failAt == 0 {
        return false;
      }
      var refreshBefore, accessBefore := refresh, access;
      if failAt == 1 {
        return false;
      }
      refresh := map i | i in refresh ::
        if refresh[i].device == device then refresh[i].(revokedAt := Some(Unix(now))) else refresh[i];
      if failAt == 2 {
        refresh := refreshBefore;
        return false;
      }
      access := map i | i in access ::
        if access[i].device == device then access[i].(revokedAt := Some(Unix(now))) else access[i];
      if failAt == 3 {
        refresh, access := refreshBefore, accessBefore;
        return false;
      }
      return true;
    }

    method RevokeMobileDevice(device: Id, now: Instant, failAt: nat) returns (ok: bool)
      modifies this`devices, this`refresh, this`access
      ensures ok <==> failAt > 4
      ensures ExecAll(old(Contents()), RevokeDeviceTx(device, Unix(now))).Some?
      ensures Contents()
            == if ok then ExecAll(old(Contents()), RevokeDeviceTx(device, Unix(now))).value else old(Contents())
      ensures devices.Keys == old(devices).Keys
      ensures refresh.Keys == old(refresh).Keys && access.Keys == old(access).Keys
      ensures forall i :: i in devices ==>
                devices[i] == if ok && i == device
                              then old(devices)[i].(revokedAt := Some(now / 1_000_000_000)) else old(devices)[i]
      ensures forall i :: i in refresh ==>
                refresh[i] == if ok && old(refresh)[i].device == device
                              then old(refresh)[i].(revokedAt := Some(now / 1_000_000_000)) else old(refresh)[i]
      ensures forall i :: i in access ==>
                access[i] == if ok && old(access)[i].device == device
                             then old(access)[i].(revokedAt := Some(now / 1_000_000_000)) else old(access)[i]
    {
      ExecAllThree(Contents(), RevokeDeviceRow(device, Unix(now)), RevokeRefreshOf(device, Unix(now)),
                   RevokeAccessOf(device, Unix(now)));
      ExecAllTwo(Exec(Contents(), RevokeDeviceRow(device, Unix(now))).value, RevokeRefreshOf(device, Unix(now)),
                 RevokeAccessOf(device, Unix(now)));
      if failAt <= 1 {
        return false;
      }
      var devicesBefore := devices;
      if device in devices {
        devices := devices[device := devices[device].(revokedAt := Some(Unix(now)))];
      }
      var rest := RevokeAllSessionsForDevice(device, now, failAt - 1);
      if !rest {
        devices := devicesBefore;
        return false;
      }
      return true;
    }

    // ----- db.go

    /** Three statements of their own, no transaction: what was deleted before a failure stays deleted. */
    method CleanupExpired(now: Instant, failAt: nat) returns (ok: bool)
      modifies this`auths, this`refresh, this`access
      ensures ok <==> failAt >= 3
      ensures Contents() == Cleaned(old(Contents()), Unix(now), failAt)
      ensures forall i :: i in auths <==>
                && i in old(auths)
                && (failAt >= 1 ==> old(auths)[i].expiresAt >= now / 1_000_000_000 || old(auths)[i].status == Approved)
      ensures forall i :: i in refresh <==>
                i in old(refresh) && (failAt >= 2 ==> old(refresh)[i].expiresAt >= now / 1_000_000_000)
      ensures forall i :: i in access <==>
                i in old(access) && (failAt >= 3 ==> old(access)[i].expiresAt >= now / 1_000_000_000)
      ensures forall i :: i in auths ==> auths[i] == old(auths)[i]
      ensures forall i :: i in refresh ==> refresh[i] == old(refresh)[i]
      ensures forall i :: i in access ==> access[i] == old(access)[i]
      ensures forall i :: i in old(refresh) && !Expired(now, old(refresh)[i].expiresAt) ==> i in refresh
      ensures forall i :: i in old(access) && !Expired(now, old(access)[i].expiresAt) ==> i in access
    {
      var second := Unix(now);
      if failAt == 0 {
        return false;
      }
      auths := map i | i in auths && !(auths[i].expiresAt < second && auths[i].status != Approved) :: auths[i];
      if failAt == 1 {
        return false;
      }
      refresh := map i | i in refresh && !(refresh[i].expiresAt < second) :: refresh[i];
      if failAt == 2 {
        return false;
      }
      access := map i | i in access && !(access[i].expiresAt < second) :: access[i];
      return true;
    }
  }
}
