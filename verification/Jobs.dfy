/**
 * The broker at the interleaved grain: a request is a job that makes one call of
 * internal/db after another, and other requests' calls may come between any two of them.
 */
module Jobs {
  import opened Base
  import opened Tables
  import opened Broker

  // ----- calls of internal/db

  datatype Query =
    | AuthById(id: Id)
    | DeviceById(id: Id)
    | RefreshByHash(hash: Digest)
    | AccessByHash(hash: Digest)
    | AccessOfDevice(device: Id)
    | RefreshOfDevice(device: Id)

  /**
   * A lookup, or statements that take effect together. `BeginOuter` is the outer BeginTx of
   * the old refresh handler.
   */
  datatype Call = Lookup(query: Query) | Batch(stmts: seq<Stmt>) | BeginOuter

  datatype Result =
    | Failed
    | Done
    | NoRow
    | Auth(auth: AuthRow)
    | Dev(dev: Device)
    | Refresh(refreshId: Id, refresh: RefreshRow)
    | Access(accessId: Id, access: AccessRow)

  ghost function Answer(t: Tables, q: Query): Result {
    match q
    case AuthById(id) => if id in t.auths then Auth(t.auths[id]) else NoRow
    case DeviceById(id) => if id in t.devices then Dev(t.devices[id]) else NoRow
    case RefreshByHash(h) =>
      var found := FindRefresh(t.refresh, h);
      if found.Some? then Refresh(found.value, t.refresh[found.value]) else NoRow
    case AccessByHash(h) =>
      var found := FindAccess(t.access, h);
      if found.Some? then Access(found.value, t.access[found.value]) else NoRow
    case _ => Done
  }

  /** One call as one indivisible step; when it fails, the tables are as before. */
  ghost function Effect(t: Tables, c: Call, ok: bool): (Tables, Result) {
    match c
    case Lookup(q) => (t, if ok then Answer(t, q) else Failed)
    case Batch(stmts) =>
      var after := ExecAll(t, stmts);
      if ok && after.Some? then (after.value, Done) else (t, Failed)
    case BeginOuter => (t, Done)
  }

  // ----- requests

  datatype Refreshing = Refreshing(cfg: Config, token: string, mint: Mint, clock: RefreshClock)
  datatype Deleting = Deleting(cfg: Config, token: string, now: Instant)
  /** `audits`: how many audit rows follow an admission; none over HTTP, one or two for a WebSocket. */
  datatype Proxying = Proxying(cfg: Config, token: string, clock: ProxyClock, audits: nat)
  datatype Polling = Polling(cfg: Config, id: Id, answer: GitHubAnswer, mint: Mint, clock: PollClock)

  /** Where a request stands: the constructor names the call it makes next. */
  datatype Job =
    | RefreshLookup(r: Refreshing)
    | RefreshDevice(r: Refreshing, id: Id, row: RefreshRow)
    | RefreshAccess(r: Refreshing, id: Id, row: RefreshRow)
    | RefreshRotate(r: Refreshing, id: Id, row: RefreshRow)
    | DeleteLookup(d: Deleting)
    | DeleteRevoke(d: Deleting, device: Id)
    | ProxyLookup(p: Proxying)
    | ProxyDevice(p: Proxying, device: Id)
    | ProxyRevoke(p: Proxying, device: Id)
    | ProxyTouch(p: Proxying, device: Id, email: string)
    | PollLookup(q: Polling)
    | PollMark(q: Polling, status: Status, email: string, now: Instant)
    | PollSlow(q: Polling, interval: int)
    | PairDevice(q: Polling, email: string)
    | PairAccess(q: Polling, email: string)
    | PairRefresh(q: Polling, email: string)
    | PairStatus(q: Polling, email: string)
    | PairConsumed(q: Polling, email: string)
    | CreateAuth(newId: Id, interval: int, expiresIn: int, now: Instant)
    | CleanAuths(at: Instant)
    | CleanRefresh(at: Instant)
    | CleanAccess(at: Instant)
    | RevokeDevice(device: Id, now: Instant)
    | ListAccess(device: Id)
    | ListRefresh(device: Id)
    | AuditTwice(reply: Reply)
    | AuditThen(reply: Reply)
    | OuterBegin(r: Refreshing, id: Id, row: RefreshRow)
    | Finished(reply: Reply)

  /** The call a job makes next; a finished job makes none. */
  function CallOf(j: Job): Option<Call> {
    match j
    case RefreshLookup(r) => Some(Lookup(RefreshByHash(HashSecret(r.cfg, r.token))))
    case RefreshDevice(_, _, row) => Some(Lookup(DeviceById(row.device)))
    case RefreshAccess(r, _, row) =>
      Some(Batch([InsertAccess(r.mint.accessId, row.device, HashSecret(r.cfg, r.mint.accessToken),
                               Unix(r.clock.issue), Unix(r.clock.issue + r.cfg.accessTTL))]))
    case RefreshRotate(r, id, row) =>
      Some(Batch(RotateTx(id, HashSecret(r.cfg, r.token), r.mint.refreshId, HashSecret(r.cfg, r.mint.refreshToken),
                          Unix(r.clock.rotate), Unix(r.clock.issue + r.cfg.refreshTTL))))
    case DeleteLookup(d) => Some(Lookup(AccessByHash(HashSecret(d.cfg, d.token))))
    case DeleteRevoke(d, device) => Some(Batch(RevokeAllTx(device, Unix(d.now))))
    case ProxyLookup(p) => Some(Lookup(AccessByHash(HashSecret(p.cfg, p.token))))
    case ProxyDevice(_, device) => Some(Lookup(DeviceById(device)))
    case ProxyRevoke(p, device) => Some(Batch(RevokeAllTx(device, Unix(p.clock.write))))
    case ProxyTouch(p, device, _) => Some(Batch([TouchDevice(device, Unix(p.clock.write))]))
    case PollLookup(q) => Some(Lookup(AuthById(q.id)))
    case PollMark(q, status, email, now) => Some(Batch([SetStatus(q.id, status, email, Unix(now))]))
    case PollSlow(q, interval) => Some(Batch([SetPollAfter(q.id, interval)]))
    case PairDevice(q, email) => Some(Batch([InsertDevice(q.mint.deviceId, email, Unix(q.clock.device))]))
    case PairAccess(q, _) =>
      Some(Batch([InsertAccess(q.mint.accessId, q.mint.deviceId, HashSecret(q.cfg, q.mint.accessToken),
                               Unix(q.clock.issue), Unix(q.clock.issue + q.cfg.accessTTL))]))
    case PairRefresh(q, _) =>
      Some(Batch([InsertRefresh(q.mint.refreshId, q.mint.deviceId, HashSecret(q.cfg, q.mint.refreshToken),
                                Unix(q.clock.issue), Unix(q.clock.issue + q.cfg.refreshTTL))]))
    case PairStatus(q, email) => Some(Batch([SetStatus(q.id, Approved, email, Unix(q.clock.status))]))
    case PairConsumed(q, _) => Some(Batch([SetConsumed(q.id, Unix(q.clock.consumed))]))
    case CreateAuth(newId, interval, expiresIn, now) =>
      Some(Batch([InsertAuth(newId, interval, Unix(now + expiresIn * 1_000_000_000))]))
    case CleanAuths(at) => Some(Batch([DeleteAuths(Unix(at))]))
    case CleanRefresh(at) => Some(Batch([DeleteRefresh(Unix(at))]))
    case CleanAccess(at) => Some(Batch([DeleteAccess(Unix(at))]))
    case RevokeDevice(device, now) => Some(Batch(RevokeDeviceTx(device, Unix(now))))
    case ListAccess(device) => Some(Lookup(AccessOfDevice(device)))
    case ListRefresh(device) => Some(Lookup(RefreshOfDevice(device)))
    case AuditTwice(_) => Some(Batch([Audit]))
    case AuditThen(_) => Some(Batch([Audit]))
    case OuterBegin(_, _, _) => Some(BeginOuter)
    case Finished(_) => None
  }

  /** What the handler does with the result of its call. */
  function Resume(j: Job, res: Result): Job {
    match j
    case RefreshLookup(r) =>
      if res.Refresh? then
        var row := res.refresh;
        if row.revokedAt.Some? || Expired(r.clock.check, row.expiresAt) || row.rotatedAt.Some? then
          Finished(Unauthorized)
        else RefreshDevice(r, res.refreshId, res.refresh)
      else Finished(if res.NoRow? then Unauthorized else ServerError)
    case RefreshDevice(r, id, row) =>
      if res.Dev? && res.dev.revokedAt.None? then RefreshAccess(r, id, row)
      else Finished(if res.Failed? then ServerError else Unauthorized)
    case RefreshAccess(r, id, row) => if res.Done? then RefreshRotate(r, id, row) else Finished(ServerError)
    case RefreshRotate(r, _, _) =>
      if res.Done? then
        AuditThen(RefreshedWith(r.mint.accessToken, r.mint.refreshToken,
                                Unix(r.clock.issue + r.cfg.accessTTL), Unix(r.clock.issue + r.cfg.refreshTTL)))
      else Finished(ServerError)
    case DeleteLookup(d) =>
      if res.Access? then DeleteRevoke(d, res.access.device)
      else Finished(if res.NoRow? then NoContent else ServerError)
    case DeleteRevoke(_, _) => if res.Done? then AuditThen(NoContent) else Finished(ServerError)
    case ProxyLookup(p) =>
      if res.Access? then
        if res.access.revokedAt.Some? || Expired(p.clock.check, res.access.expiresAt) then Finished(Unauthorized)
        else ProxyDevice(p, res.access.device)
      else Finished(if res.NoRow? then Unauthorized else ServerError)
    case ProxyDevice(p, device) =>
      if res.Dev? && res.dev.revokedAt.None? then
        if IsEmailAllowed(p.cfg, res.dev.email) then ProxyTouch(p, device, res.dev.email) else ProxyRevoke(p, device)
      else Finished(if res.Failed? then ServerError else Unauthorized)
    case ProxyRevoke(_, _) => AuditThen(Unauthorized)
    case ProxyTouch(p, device, email) =>
      if p.audits == 0 then Finished(Forwarded(device, email))
      else if p.audits == 1 then AuditThen(Forwarded(device, email))
      else AuditTwice(Forwarded(device, email))
    case PollLookup(q) => AfterPollLookup(q, res)
    case PollMark(q, status, _, _) =>
      if status == Forbidden || (status == Denied && q.answer.TokenWithEmails?) then AuditThen(StatusIs(status))
      else Finished(StatusIs(status))
    case PollSlow(_, _) => Finished(StatusIs(SlowDown))
    case PairDevice(q, email) => if res.Done? then PairAccess(q, email) else Finished(ServerError)
    case PairAccess(q, email) => if res.Done? then PairRefresh(q, email) else Finished(ServerError)
    case PairRefresh(q, email) => if res.Done? then PairStatus(q, email) else Finished(ServerError)
    case PairStatus(q, email) => PairConsumed(q, email)
    case PairConsumed(q, email) =>
      AuditThen(ApprovedWith(email, q.mint.accessToken, q.mint.refreshToken,
                             Unix(q.clock.issue + q.cfg.accessTTL), Unix(q.clock.issue + q.cfg.refreshTTL)))
    case CreateAuth(newId, _, _, _) => Finished(if res.Done? then Created(newId) else ServerError)
    case CleanAuths(at) => if res.Done? then CleanRefresh(at) else Finished(ServerError)
    case CleanRefresh(at) => if res.Done? then CleanAccess(at) else Finished(ServerError)
    case CleanAccess(_) => Finished(if res.Done? then Silent else ServerError)
    case RevokeDevice(_, _) => Finished(if res.Done? then NoContent else ServerError)
    case ListAccess(device) => if res.Failed? then Finished(ServerError) else ListRefresh(device)
    case ListRefresh(_) => Finished(if res.Failed? then ServerError else Silent)
    case AuditTwice(reply) => AuditThen(reply)
    case AuditThen(reply) => Finished(reply)
    case OuterBegin(r, id, row) => RefreshAccess(r, id, row)
    case Finished(_) => j
  }

  function AfterPollLookup(q: Polling, res: Result): Job {
    if !res.Auth? then Finished(if res.NoRow? then NotFound else ServerError)
    else
      var auth := res.auth;
      if auth.consumedAt.Some? then Finished(AlreadyConsumed)
      else if Expired(q.clock.check, auth.expiresAt) then PollMark(q, ExpiredStatus, "", q.clock.check)
      else if auth.status != Pending && auth.status != SlowDown then Finished(StatusIs(auth.status))
      else
        match q.answer
        case Undecryptable => Finished(ServerError)
        case PollFailed => Finished(StatusIs(auth.status))
        case AuthorizationPending => Finished(StatusIs(auth.status))
        case AskedToSlowDown(interval) =>
          if interval > auth.pollAfter then PollSlow(q, interval) else Finished(StatusIs(SlowDown))
        case TokenWithoutEmails => PollMark(q, Denied, "", q.clock.status)
        case TokenWithEmails(emails) =>
          var email := PrimaryEmail(emails);
          if email == "" then PollMark(q, Denied, "", q.clock.status)
          else if !IsEmailAllowed(q.cfg, email) then PollMark(q, Forbidden, email, q.clock.status)
          else PairDevice(q, email)
  }

  // ----- a call that fails

  /** The calls whose error the handler ignores. */
  predicate ErrorIsIgnored(j: Job) {
    || j.ProxyRevoke? || j.ProxyTouch? || j.PollMark? || j.PollSlow? || j.PairStatus? || j.PairConsumed?
    || j.AuditTwice? || j.AuditThen?
  }

  /** A failed call is answered with a server error, except where the handler ignores it and goes on. */
  lemma FailedCallsEndTheRequest(j: Job)
    requires CallOf(j).Some? && !j.OuterBegin?
    ensures Resume(j, Failed) == if ErrorIsIgnored(j) then Resume(j, Done) else Finished(ServerError)
  {
    if j.PollLookup? { assert AfterPollLookup(j.q, Failed) == Finished(ServerError); }
  }

  // ----- a job that nobody interrupts

  /** How many connection steps the calls after the current one can still take. */
  function Later(j: Job): nat {
    match j
    case RefreshLookup(_) => 13
    case RefreshDevice(_, _, _) => 10
    case RefreshAccess(_, _, _) => 7
    case RefreshRotate(_, _, _) => 3
    case DeleteLookup(_) => 7
    case DeleteRevoke(_, _) => 3
    case ProxyLookup(_) => 12
    case ProxyDevice(_, _) => 9
    case ProxyRevoke(_, _) => 3
    case ProxyTouch(_, _, _) => 6
    case PollLookup(_) => 18
    case PollMark(_, _, _, _) => 3
    case PollSlow(_, _) => 0
    case PairDevice(_, _) => 15
    case PairAccess(_, _) => 12
    case PairRefresh(_, _) => 9
    case PairStatus(_, _) => 6
    case PairConsumed(_, _) => 3
    case CreateAuth(_, _, _, _) => 0
    case CleanAuths(_) => 6
    case CleanRefresh(_) => 3
    case CleanAccess(_) => 0
    case RevokeDevice(_, _) => 0
    case ListAccess(_) => 3
    case ListRefresh(_) => 0
    case AuditTwice(_) => 3
    case AuditThen(_) => 0
    case OuterBegin(_, _, _) => 10
    case Finished(_) => 0
  }

  /** Taking the connection, one step per statement or question, giving it back. */
  function Size(c: Option<Call>): nat {
    match c
    case None => 0
    case Some(Lookup(_)) => 3
    case Some(Batch(stmts)) => |stmts| + 2
    case Some(BeginOuter) => 2
  }

  predicate IsRefreshing(j: Job) {
    j.RefreshLookup? || j.RefreshDevice? || j.RefreshAccess? || j.RefreshRotate? || j.OuterBegin?
  }

  predicate IsPolling(j: Job) {
    || j.PollLookup? || j.PollMark? || j.PollSlow?
    || j.PairDevice? || j.PairAccess? || j.PairRefresh? || j.PairStatus? || j.PairConsumed?
  }

  /** What remains after a call fits into what `Later` allows. */
  predicate Fits(j: Job, res: Result) {
    Size(CallOf(Resume(j, res))) + Later(Resume(j, res)) <= Later(j)
  }

  lemma PollLookupFits(j: Job, res: Result)
    requires j.PollLookup?
    ensures Fits(j, res)
  {
    var j1 := AfterPollLookup(j.q, res);
    assert Resume(j, res) == j1;
    assert j1.Finished? || j1.PollMark? || j1.PollSlow? || j1.PairDevice?;
  }

  lemma PollFits(j: Job, res: Result)
    requires IsPolling(j)
    ensures Fits(j, res)
  {
    if j.PollLookup? { PollLookupFits(j, res); }
  }

  lemma RefreshFits(j: Job, res: Result)
    requires IsRefreshing(j)
    ensures Fits(j, res)
  {
  }

  predicate IsProxying(j: Job) {
    j.ProxyLookup? || j.ProxyDevice? || j.ProxyRevoke? || j.ProxyTouch?
  }

  lemma ProxyFits(j: Job, res: Result)
    requires IsProxying(j)
    ensures Fits(j, res)
  {
  }

  lemma OtherFits(j: Job, res: Result)
    requires !IsPolling(j) && !IsRefreshing(j) && !IsProxying(j) && !j.Finished?
    ensures Fits(j, res)
  {
  }

  lemma ResumeFits(j: Job, res: Result)
    requires !j.Finished?
    ensures Fits(j, res)
  {
    if IsPolling(j) {
      PollFits(j, res);
    } else if IsRefreshing(j) {
      RefreshFits(j, res);
    } else if IsProxying(j) {
      ProxyFits(j, res);
    } else {
      OtherFits(j, res);
    }
  }

  lemma ExecOne(t: Tables, s: Stmt)
    ensures ExecAll(t, [s]) == Exec(t, s)
  {
    if Exec(t, s).Some? {
      assert ExecAll(t, [s]) == ExecAll(Exec(t, s).value, []);
    }
  }
}
