/**
 * A job that nobody interrupts: its calls in a row are the serial step of Broker.dfy, so
 * the interleaved grain refines the serial one wherever requests do not overlap.
 */
module Alone {
  import opened Base
  import opened Tables
  import opened Broker
  import opened Jobs

  /** The job's next call, made with success, and the job after it. */
  ghost function Proceed(t: Tables, j: Job): (Tables, Job) {
    if j.Finished? then (t, j)
    else
      var (t1, res) := Effect(t, CallOf(j).value, true);
      (t1, Resume(j, res))
  }

  /** Tables and reply when every call succeeds and no other request's call comes between. */
  ghost function RunAlone(t: Tables, j: Job): (Tables, Reply)
    decreases Size(CallOf(j)) + Later(j)
  {
    if j.Finished? then (t, j.reply)
    else
      var res := Effect(t, CallOf(j).value, true).1;
      ResumeFits(j, res);
      RunAlone(Proceed(t, j).0, Proceed(t, j).1)
  }

  /**
   * Anything that follows a job to its end. The lemmas below hold of every such `f`, which
   * keeps the unfolding of `RunAlone` out of their proofs.
   */
  ghost predicate Follows(f: (Tables, Job) -> (Tables, Reply)) {
    && (forall t: Tables, reply :: f(t, Finished(reply)) == (t, reply))
    && (forall t: Tables, j: Job {:trigger Proceed(t, j)} :: !j.Finished? ==>
          f(t, j) == f(Proceed(t, j).0, Proceed(t, j).1))
  }

  lemma RunAloneFollows()
    ensures Follows(RunAlone)
  {
  }

  // ----- one call

  lemma Looked(f: (Tables, Job) -> (Tables, Reply), t: Tables, j: Job, q: Query)
    requires Follows(f) && CallOf(j) == Some(Lookup(q))
    ensures f(t, j) == f(t, Resume(j, Answer(t, q)))
  {
    assert Proceed(t, j) == (t, Resume(j, Answer(t, q)));
  }

  lemma Batched(f: (Tables, Job) -> (Tables, Reply), t: Tables, j: Job, stmts: seq<Stmt>)
    requires Follows(f) && CallOf(j) == Some(Batch(stmts))
    ensures var after := ExecAll(t, stmts);
            f(t, j) == if after.Some? then f(after.value, Resume(j, Done)) else f(t, Resume(j, Failed))
  {
    var after := ExecAll(t, stmts);
    assert Proceed(t, j) == if after.Some? then (after.value, Resume(j, Done)) else (t, Resume(j, Failed));
  }

  lemma Stated(f: (Tables, Job) -> (Tables, Reply), t: Tables, j: Job, s: Stmt)
    requires Follows(f) && CallOf(j) == Some(Batch([s]))
    ensures f(t, j) == if Exec(t, s).Some? then f(Exec(t, s).value, Resume(j, Done)) else f(t, Resume(j, Failed))
  {
    Batched(f, t, j, [s]);
    ExecOne(t, s);
  }

  lemma Audited(f: (Tables, Job) -> (Tables, Reply), t: Tables, reply: Reply)
    requires Follows(f)
    ensures f(t, AuditThen(reply)) == (t, reply)
    ensures f(t, AuditTwice(reply)) == (t, reply)
  {
    Stated(f, t, AuditThen(reply), Audit);
    Stated(f, t, AuditTwice(reply), Audit);
  }

  // ----- refresh

  /** The two writes of an accepted refresh, uninterrupted. */
  ghost function Accepted(t: Tables, r: Refreshing, id: Id, row: RefreshRow): (Tables, Reply) {
    var accessUntil, refreshUntil := Unix(r.clock.issue + r.cfg.accessTTL), Unix(r.clock.issue + r.cfg.refreshTTL);
    var h, newHash := HashSecret(r.cfg, r.token), HashSecret(r.cfg, r.mint.refreshToken);
    var added := AddAccess(t, r.mint.accessId, row.device, HashSecret(r.cfg, r.mint.accessToken),
                           Unix(r.clock.issue), accessUntil);
    if added.None? then (t, ServerError)
    else
      var after := ExecAll(added.value, RotateTx(id, h, r.mint.refreshId, newHash, Unix(r.clock.rotate), refreshUntil));
      if after.None? then (added.value, ServerError)
      else (after.value, RefreshedWith(r.mint.accessToken, r.mint.refreshToken, accessUntil, refreshUntil))
  }

  lemma RotationAlone(f: (Tables, Job) -> (Tables, Reply), t: Tables, r: Refreshing, id: Id, row: RefreshRow)
    requires Follows(f)
    ensures var after := ExecAll(t, CallOf(RefreshRotate(r, id, row)).value.stmts);
            f(t, RefreshRotate(r, id, row)) ==
            if after.None? then (t, ServerError)
            else (after.value, RefreshedWith(r.mint.accessToken, r.mint.refreshToken,
                                             Unix(r.clock.issue + r.cfg.accessTTL),
                                             Unix(r.clock.issue + r.cfg.refreshTTL)))
  {
    var j := RefreshRotate(r, id, row);
    var after := ExecAll(t, CallOf(j).value.stmts);
    Batched(f, t, j, CallOf(j).value.stmts);
    if after.Some? {
      Audited(f, after.value, Resume(j, Done).reply);
    }
  }

  lemma AcceptedAlone(f: (Tables, Job) -> (Tables, Reply), t: Tables, r: Refreshing, id: Id, row: RefreshRow)
    requires Follows(f)
    ensures f(t, RefreshAccess(r, id, row)) == Accepted(t, r, id, row)
  {
    var j := RefreshAccess(r, id, row);
    var s := CallOf(j).value.stmts[0];
    Stated(f, t, j, s);
    if Exec(t, s).Some? {
      RotationAlone(f, Exec(t, s).value, r, id, row);
    }
  }

  lemma FoundAlone(f: (Tables, Job) -> (Tables, Reply), t: Tables, r: Refreshing, id: Id, row: RefreshRow)
    requires Follows(f)
    ensures f(t, RefreshDevice(r, id, row)) ==
            if row.device in t.devices && t.devices[row.device].revokedAt.None? then Accepted(t, r, id, row)
            else (t, Unauthorized)
  {
    Looked(f, t, RefreshDevice(r, id, row), DeviceById(row.device));
    AcceptedAlone(f, t, r, id, row);
  }

  lemma RefreshAlone(f: (Tables, Job) -> (Tables, Reply), t: Tables, r: Refreshing)
    requires Follows(f) && r.token != ""
    ensures f(t, RefreshLookup(r)) == RefreshSession(t, r.cfg, r.token, r.mint, r.clock, {})
  {
    var h := HashSecret(r.cfg, r.token);
    var found := FindRefresh(t.refresh, h);
    Looked(f, t, RefreshLookup(r), RefreshByHash(h));
    if found.Some? {
      FoundAlone(f, t, r, found.value, t.refresh[found.value]);
    }
  }

  /** The serial refresh handler is the refresh job running alone. */
  lemma SerialRefresh(t: Tables, r: Refreshing)
    requires r.token != ""
    ensures RunAlone(t, RefreshLookup(r)) == RefreshSession(t, r.cfg, r.token, r.mint, r.clock, {})
  {
    RunAloneFollows();
    RefreshAlone(RunAlone, t, r);
  }

  // ----- DELETE and the proxied request

  lemma DeleteAlone(f: (Tables, Job) -> (Tables, Reply), t: Tables, d: Deleting)
    requires Follows(f)
    ensures f(t, DeleteLookup(d)) == RevokeCurrentSession(t, d.cfg, d.token, d.now, {})
  {
    var h := HashSecret(d.cfg, d.token);
    var found := FindAccess(t.access, h);
    Looked(f, t, DeleteLookup(d), AccessByHash(h));
    if found.Some? {
      var stmts := RevokeAllTx(t.access[found.value].device, Unix(d.now));
      Batched(f, t, DeleteRevoke(d, t.access[found.value].device), stmts);
      if ExecAll(t, stmts).Some? {
        Audited(f, ExecAll(t, stmts).value, NoContent);
      }
    }
  }

  /** The serial DELETE is the DELETE job running alone. */
  lemma SerialDelete(t: Tables, d: Deleting)
    ensures RunAlone(t, DeleteLookup(d)) == RevokeCurrentSession(t, d.cfg, d.token, d.now, {})
  {
    RunAloneFollows();
    DeleteAlone(RunAlone, t, d);
  }

  lemma TouchAlone(f: (Tables, Job) -> (Tables, Reply), t: Tables, p: Proxying, device: Id, email: string)
    requires Follows(f)
    ensures f(t, ProxyTouch(p, device, email)) ==
            (t.(devices := WithLastSeen(t.devices, device, Unix(p.clock.write))), Forwarded(device, email))
  {
    var s := TouchDevice(device, Unix(p.clock.write));
    Stated(f, t, ProxyTouch(p, device, email), s);
    Audited(f, Exec(t, s).value, Forwarded(device, email));
  }

  lemma OffListAlone(f: (Tables, Job) -> (Tables, Reply), t: Tables, p: Proxying, device: Id)
    requires Follows(f)
    ensures var after := ExecAll(t, RevokeAllTx(device, Unix(p.clock.write)));
            f(t, ProxyRevoke(p, device)) == (if after.Some? then after.value else t, Unauthorized)
  {
    var stmts := RevokeAllTx(device, Unix(p.clock.write));
    Batched(f, t, ProxyRevoke(p, device), stmts);
    Audited(f, if ExecAll(t, stmts).Some? then ExecAll(t, stmts).value else t, Unauthorized);
  }

  lemma ProxyAlone(f: (Tables, Job) -> (Tables, Reply), t: Tables, p: Proxying)
    requires Follows(f)
    ensures f(t, ProxyLookup(p)) == AuthenticateDevice(t, p.cfg, p.token, p.clock, {})
  {
    var h := HashSecret(p.cfg, p.token);
    var found := FindAccess(t.access, h);
    Looked(f, t, ProxyLookup(p), AccessByHash(h));
    if found.Some? {
      var device := t.access[found.value].device;
      Looked(f, t, ProxyDevice(p, device), DeviceById(device));
      if device in t.devices {
        TouchAlone(f, t, p, device, t.devices[device].email);
        OffListAlone(f, t, p, device);
      }
    }
  }

  /** The serial proxied request is the proxied job running alone. */
  lemma SerialProxy(t: Tables, p: Proxying)
    ensures RunAlone(t, ProxyLookup(p)) == AuthenticateDevice(t, p.cfg, p.token, p.clock, {})
  {
    RunAloneFollows();
    ProxyAlone(RunAlone, t, p);
  }

  // ----- cleanup

  lemma CleanupAlone(f: (Tables, Job) -> (Tables, Reply), t: Tables, at: Instant)
    requires Follows(f)
    ensures f(t, CleanAuths(at)) == (Cleaned(t, Unix(at), 3), Silent)
  {
    var t1 := t.(auths := KeptAuths(t.auths, Unix(at)));
    var t2 := t1.(refresh := KeptRefresh(t.refresh, Unix(at)));
    Stated(f, t, CleanAuths(at), DeleteAuths(Unix(at)));
    Stated(f, t1, CleanRefresh(at), DeleteRefresh(Unix(at)));
    Stated(f, t2, CleanAccess(at), DeleteAccess(Unix(at)));
  }

  /** The serial cleanup is its three statements without interruption. */
  lemma SerialCleanup(t: Tables, at: Instant)
    ensures RunAlone(t, CleanAuths(at)) == (Cleaned(t, Unix(at), 3), Silent)
  {
    RunAloneFollows();
    CleanupAlone(RunAlone, t, at);
  }

  // ----- creation and poll

  lemma CreateAlone(f: (Tables, Job) -> (Tables, Reply), t: Tables, id: Id, interval: int, expiresIn: int, now: Instant)
    requires Follows(f)
    ensures f(t, CreateAuth(id, interval, expiresIn, now)) == CreateAuthorization(t, id, interval, expiresIn, now, {})
  {
    Stated(f, t, CreateAuth(id, interval, expiresIn, now),
           InsertAuth(id, interval, Unix(now + expiresIn * 1_000_000_000)));
  }

  /** The serial creation of a transaction is the creating job running alone. */
  lemma SerialCreate(t: Tables, id: Id, interval: int, expiresIn: int, now: Instant)
    ensures RunAlone(t, CreateAuth(id, interval, expiresIn, now))
          == CreateAuthorization(t, id, interval, expiresIn, now, {})
  {
    RunAloneFollows();
    CreateAlone(RunAlone, t, id, interval, expiresIn, now);
  }

  function PairedReply(q: Polling, email: string): Reply {
    ApprovedWith(email, q.mint.accessToken, q.mint.refreshToken,
                 Unix(q.clock.issue + q.cfg.accessTTL), Unix(q.clock.issue + q.cfg.refreshTTL))
  }

  lemma MarksAlone(f: (Tables, Job) -> (Tables, Reply), t: Tables, q: Polling, email: string)
    requires Follows(f)
    ensures var marked := WithStatus(t.auths, q.id, Approved, email, Unix(q.clock.status));
            f(t, PairStatus(q, email)) ==
            (t.(auths := WithConsumed(marked, q.id, Unix(q.clock.consumed))), PairedReply(q, email))
  {
    var t1 := t.(auths := WithStatus(t.auths, q.id, Approved, email, Unix(q.clock.status)));
    Stated(f, t, PairStatus(q, email), SetStatus(q.id, Approved, email, Unix(q.clock.status)));
    Stated(f, t1, PairConsumed(q, email), SetConsumed(q.id, Unix(q.clock.consumed)));
    Audited(f, t1.(auths := WithConsumed(t1.auths, q.id, Unix(q.clock.consumed))), PairedReply(q, email));
  }

  /** The last insert of a pairing and its marks, uninterrupted. */
  function LastInsert(t: Tables, q: Polling, email: string): (Tables, Reply) {
    var t3 := AddRefresh(t, q.mint.refreshId, q.mint.deviceId, HashSecret(q.cfg, q.mint.refreshToken),
                         Unix(q.clock.issue), Unix(q.clock.issue + q.cfg.refreshTTL));
    if t3.None? then (t, ServerError)
    else
      var marked := WithStatus(t3.value.auths, q.id, Approved, email, Unix(q.clock.status));
      (t3.value.(auths := WithConsumed(marked, q.id, Unix(q.clock.consumed))), PairedReply(q, email))
  }

  lemma LastInsertAlone(f: (Tables, Job) -> (Tables, Reply), t: Tables, q: Polling, email: string)
    requires Follows(f)
    ensures f(t, PairRefresh(q, email)) == LastInsert(t, q, email)
  {
    var s := CallOf(PairRefresh(q, email)).value.stmts[0];
    Stated(f, t, PairRefresh(q, email), s);
    if Exec(t, s).Some? {
      MarksAlone(f, Exec(t, s).value, q, email);
    }
  }

  /** The last two inserts of a pairing and its marks, uninterrupted. */
  function Sessions(t: Tables, q: Polling, email: string): (Tables, Reply) {
    var t2 := AddAccess(t, q.mint.accessId, q.mint.deviceId, HashSecret(q.cfg, q.mint.accessToken),
                        Unix(q.clock.issue), Unix(q.clock.issue + q.cfg.accessTTL));
    if t2.None? then (t, ServerError) else LastInsert(t2.value, q, email)
  }

  lemma SessionsAlone(f: (Tables, Job) -> (Tables, Reply), t: Tables, q: Polling, email: string)
    requires Follows(f)
    ensures f(t, PairAccess(q, email)) == Sessions(t, q, email)
  {
    var s := CallOf(PairAccess(q, email)).value.stmts[0];
    Stated(f, t, PairAccess(q, email), s);
    if Exec(t, s).Some? {
      LastInsertAlone(f, Exec(t, s).value, q, email);
    }
  }

  lemma PairingAlone(f: (Tables, Job) -> (Tables, Reply), t: Tables, q: Polling, email: string)
    requires Follows(f)
    ensures f(t, PairDevice(q, email)) == Approve(t, q.cfg, q.id, email, q.mint, q.clock, {})
  {
    var s := InsertDevice(q.mint.deviceId, email, Unix(q.clock.device));
    Stated(f, t, PairDevice(q, email), s);
    if Exec(t, s).Some? {
      SessionsAlone(f, Exec(t, s).value, q, email);
    }
    ApproveIsPairing(t, q, email);
  }

  lemma ApproveIsPairing(t: Tables, q: Polling, email: string)
    ensures Approve(t, q.cfg, q.id, email, q.mint, q.clock, {}) ==
            var t1 := AddDevice(t, q.mint.deviceId, email, Unix(q.clock.device));
            if t1.None? then (t, ServerError) else Sessions(t1.value, q, email)
  {
  }

  lemma MarkAlone(f: (Tables, Job) -> (Tables, Reply), t: Tables, q: Polling, status: Status, email: string,
                  now: Instant)
    requires Follows(f)
    ensures f(t, PollMark(q, status, email, now)) ==
            (t.(auths := WithStatus(t.auths, q.id, status, email, Unix(now))), StatusIs(status))
  {
    var s := SetStatus(q.id, status, email, Unix(now));
    Stated(f, t, PollMark(q, status, email, now), s);
    Audited(f, Exec(t, s).value, StatusIs(status));
  }

  lemma PollAlone(f: (Tables, Job) -> (Tables, Reply), t: Tables, q: Polling)
    requires Follows(f)
    ensures f(t, PollLookup(q)) == PollAuthorization(t, q.cfg, q.id, q.answer, q.mint, q.clock, {})
  {
    Looked(f, t, PollLookup(q), AuthById(q.id));
    if q.id in t.auths {
      match AfterPollLookup(q, Auth(t.auths[q.id]))
      case PollMark(_, status, email, now) => MarkAlone(f, t, q, status, email, now);
      case PollSlow(_, interval) => Stated(f, t, PollSlow(q, interval), SetPollAfter(q.id, interval));
      case PairDevice(_, email) => PairingAlone(f, t, q, email);
      case _ =>
    }
  }

  /** The serial poll is the poll job running alone. */
  lemma SerialPoll(t: Tables, q: Polling)
    ensures RunAlone(t, PollLookup(q)) == PollAuthorization(t, q.cfg, q.id, q.answer, q.mint, q.clock, {})
  {
    RunAloneFollows();
    PollAlone(RunAlone, t, q);
  }
}
