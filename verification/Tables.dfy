/**
 * The four tables of the broker's SQLite file and the meaning of every statement
 * that internal/db runs on them. A table is a map from primary key to row.
 */
module Tables {
  import opened Base

  /** Random ids and digests are only ever stored and compared, so numbers stand for their text. */
  type Id = int
  type Digest = int

  datatype Status = Pending | SlowDown | Denied | Forbidden | ExpiredStatus | Approved

  datatype AuthRow = AuthRow(status: Status, approvedEmail: Option<string>, consumedAt: Option<Seconds>,
                             pollAfter: int, expiresAt: Seconds)

  datatype Device = Device(email: string, createdAt: Seconds, lastSeenAt: Seconds, revokedAt: Option<Seconds>)

  /** `parent` is None for the empty string the first row of a device stores. */
  datatype RefreshRow = RefreshRow(device: Id, hash: Digest, parent: Option<Digest>, issuedAt: Seconds,
                                   expiresAt: Seconds, revokedAt: Option<Seconds>, rotatedAt: Option<Seconds>)

  datatype AccessRow = AccessRow(device: Id, hash: Digest, issuedAt: Seconds, expiresAt: Seconds,
                                 revokedAt: Option<Seconds>)

  datatype Tables = Tables(auths: map<Id, AuthRow>, devices: map<Id, Device>,
                           refresh: map<Id, RefreshRow>, access: map<Id, AccessRow>)

  const EMPTY: Tables := Tables(map[], map[], map[], map[])

  // ----- SELECT ... WHERE token_hash = ?

  /** The key of a refresh row with the given token hash, if there is one. */
  ghost function FindRefresh(rows: map<Id, RefreshRow>, h: Digest): (found: Option<Id>)
    ensures found.Some? ==> found.value in rows && rows[found.value].hash == h
    ensures found.None? ==> forall id :: id in rows ==> rows[id].hash != h
  {
    if exists id :: id in rows && rows[id].hash == h then
      var id :| id in rows && rows[id].hash == h;
      Some(id)
    else
      None
  }

  /** The key of an access row with the given token hash, if there is one. */
  ghost function FindAccess(rows: map<Id, AccessRow>, h: Digest): (found: Option<Id>)
    ensures found.Some? ==> found.value in rows && rows[found.value].hash == h
    ensures found.None? ==> forall id :: id in rows ==> rows[id].hash != h
  {
    if exists id :: id in rows && rows[id].hash == h then
      var id :| id in rows && rows[id].hash == h;
      Some(id)
    else
      None
  }

  /** The indexes on token_hash are not UNIQUE; fresh tokens are what keeps hashes apart. */
  ghost predicate RefreshHashesUnique(rows: map<Id, RefreshRow>) {
    forall i, j :: i in rows && j in rows && rows[i].hash == rows[j].hash ==> i == j
  }

  ghost predicate AccessHashesUnique(rows: map<Id, AccessRow>) {
    forall i, j :: i in rows && j in rows && rows[i].hash == rows[j].hash ==> i == j
  }

  /** With unique hashes a lookup has one possible answer. */
  lemma RefreshLookupIs(rows: map<Id, RefreshRow>, id: Id)
    requires RefreshHashesUnique(rows) && id in rows
    ensures FindRefresh(rows, rows[id].hash) == Some(id)
  {
  }

  lemma AccessLookupIs(rows: map<Id, AccessRow>, id: Id)
    requires AccessHashesUnique(rows) && id in rows
    ensures FindAccess(rows, rows[id].hash) == Some(id)
  {
  }

  // ----- INSERT, UPDATE, DELETE

  /** One statement as internal/db sends it to the connection. */
  datatype Stmt =
    | InsertAuth(id: Id, pollAfter: int, expiresAt: Seconds)
    | SetStatus(id: Id, status: Status, email: string, now: Seconds)
    | SetPollAfter(id: Id, pollAfter: int)
    | SetConsumed(id: Id, now: Seconds)
    | InsertDevice(id: Id, email: string, now: Seconds)
    | TouchDevice(id: Id, now: Seconds)
    | RevokeDeviceRow(id: Id, now: Seconds)
    | InsertRefresh(id: Id, device: Id, hash: Digest, issuedAt: Seconds, expiresAt: Seconds)
    | MarkRotated(id: Id, now: Seconds)
    | InsertSuccessor(id: Id, oldHash: Digest, hash: Digest, now: Seconds, expiresAt: Seconds)
    | RevokeRefreshOf(device: Id, now: Seconds)
    | InsertAccess(id: Id, device: Id, hash: Digest, issuedAt: Seconds, expiresAt: Seconds)
    | RevokeAccessOf(device: Id, now: Seconds)
    | DeleteAuths(now: Seconds)
    | DeleteRefresh(now: Seconds)
    | DeleteAccess(now: Seconds)
    | Audit

  /**
   * The tables after one statement, or None when a constraint refuses it: a primary
   * key already taken, or the NULL device id that InsertSuccessor's sub-select yields
   * when no row has the old hash.
   */
  ghost function Exec(t: Tables, s: Stmt): (r: Option<Tables>) {
    match s
    case InsertAuth(id, pollAfter, expiresAt) => AddAuth(t, id, pollAfter, expiresAt)
    case SetStatus(id, status, email, now) => Some(t.(auths := WithStatus(t.auths, id, status, email, now)))
    case SetPollAfter(id, pollAfter) => Some(t.(auths := WithPollAfter(t.auths, id, pollAfter)))
    case SetConsumed(id, now) => Some(t.(auths := WithConsumed(t.auths, id, now)))
    case InsertDevice(id, email, now) => AddDevice(t, id, email, now)
    case TouchDevice(id, now) => Some(t.(devices := WithLastSeen(t.devices, id, now)))
    case RevokeDeviceRow(id, now) => Some(t.(devices := WithDeviceRevoked(t.devices, id, now)))
    case InsertRefresh(id, device, hash, issuedAt, expiresAt) => AddRefresh(t, id, device, hash, issuedAt, expiresAt)
    case MarkRotated(id, now) => Some(t.(refresh := WithRotated(t.refresh, id, now)))
    case InsertSuccessor(id, oldHash, hash, now, expiresAt) => AddSuccessor(t, id, oldHash, hash, now, expiresAt)
    case RevokeRefreshOf(device, now) => Some(t.(refresh := WithRefreshRevoked(t.refresh, device, now)))
    case InsertAccess(id, device, hash, issuedAt, expiresAt) => AddAccess(t, id, device, hash, issuedAt, expiresAt)
    case RevokeAccessOf(device, now) => Some(t.(access := WithAccessRevoked(t.access, device, now)))
    case DeleteAuths(now) => Some(t.(auths := KeptAuths(t.auths, now)))
    case DeleteRefresh(now) => Some(t.(refresh := KeptRefresh(t.refresh, now)))
    case DeleteAccess(now) => Some(t.(access := KeptAccess(t.access, now)))
    case Audit => Some(t)
  }

  function AddAuth(t: Tables, id: Id, pollAfter: int, expiresAt: Seconds): Option<Tables> {
    if id in t.auths then None
    else Some(t.(auths := t.auths[id := AuthRow(Pending, None, None, pollAfter, expiresAt)]))
  }

  function AddDevice(t: Tables, id: Id, email: string, now: Seconds): Option<Tables> {
    if id in t.devices then None
    else Some(t.(devices := t.devices[id := Device(email, now, now, None)]))
  }

  function AddRefresh(t: Tables, id: Id, device: Id, hash: Digest,
                      issuedAt: Seconds, expiresAt: Seconds): Option<Tables>
  {
    if id in t.refresh then None
    else Some(t.(refresh := t.refresh[id := RefreshRow(device, hash, None, issuedAt, expiresAt, None, None)]))
  }

  ghost function AddSuccessor(t: Tables, id: Id, oldHash: Digest, hash: Digest,
                              now: Seconds, expiresAt: Seconds): Option<Tables>
  {
    var found := FindRefresh(t.refresh, oldHash);
    if found.None? || id in t.refresh then None
    else
      var row := RefreshRow(t.refresh[found.value].device, hash, Some(oldHash), now, expiresAt, None, None);
      Some(t.(refresh := t.refresh[id := row]))
  }

  function AddAccess(t: Tables, id: Id, device: Id, hash: Digest,
                     issuedAt: Seconds, expiresAt: Seconds): Option<Tables>
  {
    if id in t.access then None
    else Some(t.(access := t.access[id := AccessRow(device, hash, issuedAt, expiresAt, None)]))
  }

  function KeptAuths(rows: map<Id, AuthRow>, now: Seconds): map<Id, AuthRow> {
    map id | id in rows && !(rows[id].expiresAt < now && rows[id].status != Approved) :: rows[id]
  }

  function KeptRefresh(rows: map<Id, RefreshRow>, now: Seconds): map<Id, RefreshRow> {
    map id | id in rows && !(rows[id].expiresAt < now) :: rows[id]
  }

  function KeptAccess(rows: map<Id, AccessRow>, now: Seconds): map<Id, AccessRow> {
    map id | id in rows && !(rows[id].expiresAt < now) :: rows[id]
  }

  /** Only the status 'approved' writes the e-mail and the consumed mark along with it. */
  function WithStatus(rows: map<Id, AuthRow>, id: Id, status: Status, email: string, now: Seconds): map<Id, AuthRow> {
    if id !in rows then rows
    else if status == Approved then
      rows[id := rows[id].(status := status, approvedEmail := Some(email), consumedAt := Some(now))]
    else rows[id := rows[id].(status := status)]
  }

  function WithPollAfter(rows: map<Id, AuthRow>, id: Id, pollAfter: int): map<Id, AuthRow> {
    if id in rows then rows[id := rows[id].(pollAfter := pollAfter, status := SlowDown)] else rows
  }

  function WithConsumed(rows: map<Id, AuthRow>, id: Id, now: Seconds): map<Id, AuthRow> {
    if id in rows then rows[id := rows[id].(consumedAt := Some(now))] else rows
  }

  function WithLastSeen(rows: map<Id, Device>, id: Id, now: Seconds): map<Id, Device> {
    if id in rows then rows[id := rows[id].(lastSeenAt := now)] else rows
  }

  function WithDeviceRevoked(rows: map<Id, Device>, id: Id, now: Seconds): map<Id, Device> {
    if id in rows then rows[id := rows[id].(revokedAt := Some(now))] else rows
  }

  /** `WHERE id = ?` alone: a mark already set is overwritten, not tested. */
  function WithRotated(rows: map<Id, RefreshRow>, id: Id, now: Seconds): map<Id, RefreshRow> {
    if id in rows then rows[id := rows[id].(rotatedAt := Some(now))] else rows
  }

  function WithRefreshRevoked(rows: map<Id, RefreshRow>, device: Id, now: Seconds): map<Id, RefreshRow> {
    map id | id in rows :: if rows[id].device == device then rows[id].(revokedAt := Some(now)) else rows[id]
  }

  function WithAccessRevoked(rows: map<Id, AccessRow>, device: Id, now: Seconds): map<Id, AccessRow> {
    map id | id in rows :: if rows[id].device == device then rows[id].(revokedAt := Some(now)) else rows[id]
  }

  // ----- transactions

  /** Statements run one after the other; the first refusal stops the sequence. */
  ghost function ExecAll(t: Tables, stmts: seq<Stmt>): (r: Option<Tables>)
    decreases |stmts|
  {
    if stmts == [] then Some(t)
    else
      var first := Exec(t, stmts[0]);
      if first.None? then None else ExecAll(first.value, stmts[1..])
  }

  /** The statements of the three transactions of sessions.go. */
  function RotateTx(oldId: Id, oldHash: Digest, newId: Id, newHash: Digest,
                    now: Seconds, expiresAt: Seconds): seq<Stmt>
  {
    [MarkRotated(oldId, now), InsertSuccessor(newId, oldHash, newHash, now, expiresAt)]
  }

  function RevokeAllTx(device: Id, now: Seconds): seq<Stmt> {
    [RevokeRefreshOf(device, now), RevokeAccessOf(device, now)]
  }

  function RevokeDeviceTx(device: Id, now: Seconds): seq<Stmt> {
    [RevokeDeviceRow(device, now), RevokeRefreshOf(device, now), RevokeAccessOf(device, now)]
  }

  lemma ExecAllTwo(t: Tables, a: Stmt, b: Stmt)
    ensures ExecAll(t, [a, b]) == if Exec(t, a).None? then None else Exec(Exec(t, a).value, b)
  {
    if Exec(t, a).Some? {
      var t1 := Exec(t, a).value;
      assert [a, b][1..] == [b] && [b][1..] == [];
      assert ExecAll(t, [a, b]) == ExecAll(t1, [b]);
      assert Exec(t1, b).Some? ==> ExecAll(t1, [b]) == ExecAll(Exec(t1, b).value, []);
    }
  }

  lemma ExecAllThree(t: Tables, a: Stmt, b: Stmt, c: Stmt)
    ensures ExecAll(t, [a, b, c]) == if Exec(t, a).None? then None else ExecAll(Exec(t, a).value, [b, c])
  {
    assert [a, b, c][1..] == [b, c];
  }

  /**
   * `CleanupExpired`: three deletes in this order, one reading of the clock. It stops at the
   * first that fails; `deletes` is the number that succeed.
   */
  function Cleaned(t: Tables, now: Seconds, deletes: nat): Tables {
    t.(auths := if deletes >= 1 then KeptAuths(t.auths, now) else t.auths,
       refresh := if deletes >= 2 then KeptRefresh(t.refresh, now) else t.refresh,
       access := if deletes >= 3 then KeptAccess(t.access, now) else t.access)
  }
}
