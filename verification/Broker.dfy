/**
 * The broker at the serial grain: one request is one step. Each handler is given as a
 * function from the tables it finds to the tables it leaves and the reply it sends;
 * Handlers.dfy holds the step-by-step methods proved against these functions.
 */
module Broker {
  import opened Base
  import opened Tables
  import Emails

  /**
   * The part of internal/config the handlers read. `allowList` is the raw ALLOWED_EMAILS
   * string; `sha` and `lower` stand for SHA-256 and for Unicode's lower-case table.
   */
  datatype Config = Config(
    secret: string,
    sha: string -> Digest,
    lower: char -> char,
    allowList: string,
    accessTTL: int,
    refreshTTL: int)

  /** `HashSecret`: the digest of the secret followed by the data, for any digest function. */
  function HashSecret(cfg: Config, data: string): Digest {
    cfg.sha(cfg.secret + data)
  }

  function IsEmailAllowed(cfg: Config, email: string): bool {
    Emails.ToLower(cfg.lower, email) in Emails.Entries(cfg.lower, Emails.Split(cfg.allowList))
  }

  /** The random strings one request may draw. */
  datatype Mint = Mint(deviceId: Id, accessId: Id, accessToken: string, refreshId: Id, refreshToken: string)

  datatype GitHubEmail = GitHubEmail(email: string, primary: bool, verified: bool)

  /** Everything GitHub, or the decryption of the stored device code, may answer to one poll. */
  datatype GitHubAnswer =
    | Undecryptable
    | PollFailed
    | AuthorizationPending
    | AskedToSlowDown(interval: int)
    | TokenWithoutEmails
    | TokenWithEmails(emails: seq<GitHubEmail>)

  /** The calls of a handler that may fail; a request carries the set of those that do. */
  datatype Point =
    | ReadAuth | ReadDevice | ReadRefresh | ReadAccess
    | MakeDeviceId | MakeTokens | MakeAccessId | MakeRefreshId
    | WriteAuth | WriteDevice | WriteAccess | WriteRefresh | WriteStatus | WriteConsumed | WritePollAfter
    | Rotation | Revocation | WriteLastSeen

  datatype Reply =
    | BadRequest
    | ServerError
    | NotFound
    | Unauthorized
    | NoContent
    | Created(transaction: Id)
    | AlreadyConsumed
    | StatusIs(status: Status)
    | ApprovedWith(email: string, accessToken: string, refreshToken: string,
                   accessUntil: Seconds, refreshUntil: Seconds)
    | RefreshedWith(accessToken: string, refreshToken: string, accessUntil: Seconds, refreshUntil: Seconds)
    | Forwarded(device: Id, email: string)
    | Silent

  /** The loop over GitHub's e-mails: the first primary and verified one, or "". */
  function PrimaryEmail(emails: seq<GitHubEmail>): string {
    if emails == [] then ""
    else if emails[0].primary && emails[0].verified then emails[0].email
    else PrimaryEmail(emails[1..])
  }

  // ----- POST /v1/device-authorizations

  function CreateAuthorization(t: Tables, id: Id, interval: int, expiresIn: int, now: Instant,
                               faults: set<Point>): (Tables, Reply)
  {
    var stored := Unless(WriteAuth in faults, AddAuth(t, id, interval, Unix(now + expiresIn * 1_000_000_000)));
    if stored.None? then (t, ServerError) else (stored.value, Created(id))
  }

  /** A write that may also fail for a reason outside the tables. */
  function Unless(fails: bool, r: Option<Tables>): Option<Tables> {
    if fails then None else r
  }

  // ----- GET /v1/device-authorizations/{id}

  /** The clock readings of one poll, in the order they are taken. */
  datatype PollClock = PollClock(check: Instant, device: Instant, issue: Instant, status: Instant, consumed: Instant)

  function PollAuthorization(t: Tables, cfg: Config, id: Id, answer: GitHubAnswer, m: Mint, clock: PollClock,
                             faults: set<Point>): (Tables, Reply)
  {
    if ReadAuth in faults then (t, ServerError)
    else if id !in t.auths then (t, NotFound)
    else
      var auth := t.auths[id];
      if auth.consumedAt.Some? then (t, AlreadyConsumed)
      else if Expired(clock.check, auth.expiresAt) then
        (Marked(t, id, ExpiredStatus, "", clock.check, WriteStatus in faults), StatusIs(ExpiredStatus))
      else if auth.status != Pending && auth.status != SlowDown then (t, StatusIs(auth.status))
      else
        match answer
        case Undecryptable => (t, ServerError)
        case PollFailed => (t, StatusIs(auth.status))
        case AuthorizationPending => (t, StatusIs(auth.status))
        case AskedToSlowDown(interval) =>
          var stores := interval > auth.pollAfter && WritePollAfter !in faults;
          (if stores then t.(auths := WithPollAfter(t.auths, id, interval)) else t, StatusIs(SlowDown))
        case TokenWithoutEmails =>
          (Marked(t, id, Denied, "", clock.status, WriteStatus in faults), StatusIs(Denied))
        case TokenWithEmails(emails) =>
          var email := PrimaryEmail(emails);
          if email == "" then
            (Marked(t, id, Denied, "", clock.status, WriteStatus in faults), StatusIs(Denied))
          else if !IsEmailAllowed(cfg, email) then
            (Marked(t, id, Forbidden, email, clock.status, WriteStatus in faults), StatusIs(Forbidden))
          else Approve(t, cfg, id, email, m, clock, faults)
  }

  /** A status write whose error the handler ignores. */
  function Marked(t: Tables, id: Id, status: Status, email: string, now: Instant, lost: bool): Tables {
    if lost then t else t.(auths := WithStatus(t.auths, id, status, email, Unix(now)))
  }

  /** Pairing: a device, an access session, a refresh session, then the two marks on the transaction. */
  function Approve(t: Tables, cfg: Config, id: Id, email: string, m: Mint, clock: PollClock,
                   faults: set<Point>): (Tables, Reply)
  {
    var accessUntil := Unix(clock.issue + cfg.accessTTL);
    var refreshUntil := Unix(clock.issue + cfg.refreshTTL);
    var now := Unix(clock.issue);
    var t1 := Unless(MakeDeviceId in faults || WriteDevice in faults,
                     AddDevice(t, m.deviceId, email, Unix(clock.device)));
    if t1.None? then (t, ServerError)
    else
      var t2 := Unless(MakeTokens in faults || MakeAccessId in faults || WriteAccess in faults,
                       AddAccess(t1.value, m.accessId, m.deviceId, HashSecret(cfg, m.accessToken), now, accessUntil));
      if t2.None? then (t1.value, ServerError)
      else
        var t3 := Unless(MakeRefreshId in faults || WriteRefresh in faults,
                         AddRefresh(t2.value, m.refreshId, m.deviceId, HashSecret(cfg, m.refreshToken), now,
                                    refreshUntil));
        if t3.None? then (t2.value, ServerError)
        else
          var t4 := Marked(t3.value, id, Approved, email, clock.status, WriteStatus in faults);
          var t5 := if WriteConsumed in faults then t4
                    else t4.(auths := WithConsumed(t4.auths, id, Unix(clock.consumed)));
          (t5, ApprovedWith(email, m.accessToken, m.refreshToken, accessUntil, refreshUntil))
  }

  // ----- POST /v1/sessions/refresh

  /** Expiry test, issue of the new pair, rotation. */
  datatype RefreshClock = RefreshClock(check: Instant, issue: Instant, rotate: Instant)

  ghost function RefreshSession(t: Tables, cfg: Config, token: string, m: Mint, clock: RefreshClock,
                                faults: set<Point>): (Tables, Reply)
  {
    if token == "" then (t, BadRequest)
    else if ReadRefresh in faults then (t, ServerError)
    else
      var h := HashSecret(cfg, token);
      var found := FindRefresh(t.refresh, h);
      if found.None? then (t, Unauthorized)
      else
        var row := t.refresh[found.value];
        if row.revokedAt.Some? || Expired(clock.check, row.expiresAt) || row.rotatedAt.Some? then (t, Unauthorized)
        else if ReadDevice in faults then (t, ServerError)
        else if row.device !in t.devices || t.devices[row.device].revokedAt.Some? then (t, Unauthorized)
        else
          var accessUntil := Unix(clock.issue + cfg.accessTTL);
          var refreshUntil := Unix(clock.issue + cfg.refreshTTL);
          var drawn := MakeTokens !in faults && MakeAccessId !in faults && MakeRefreshId !in faults;
          var t1 := Unless(!drawn || WriteAccess in faults,
                           AddAccess(t, m.accessId, row.device, HashSecret(cfg, m.accessToken), Unix(clock.issue),
                                     accessUntil));
          if t1.None? then (t, ServerError)
          else
            var t2 := Unless(Rotation in faults,
                             ExecAll(t1.value, RotateTx(found.value, h, m.refreshId, HashSecret(cfg, m.refreshToken),
                                                        Unix(clock.rotate), refreshUntil)));
            if t2.None? then (t1.value, ServerError)
            else (t2.value, RefreshedWith(m.accessToken, m.refreshToken, accessUntil, refreshUntil))
  }

  // ----- DELETE /v1/sessions/current

  /** The bearer token is presented as is; its expiry is not tested. */
  ghost function RevokeCurrentSession(t: Tables, cfg: Config, token: string, now: Instant,
                                      faults: set<Point>): (Tables, Reply)
  {
    if ReadAccess in faults then (t, ServerError)
    else
      var found := FindAccess(t.access, HashSecret(cfg, token));
      if found.None? then (t, NoContent)
      else
        var t1 := Unless(Revocation in faults, ExecAll(t, RevokeAllTx(t.access[found.value].device, Unix(now))));
        if t1.None? then (t, ServerError) else (t1.value, NoContent)
  }

  // ----- a request for the Gateway

  /** Expiry test, then the write of either the revocation or the last-seen mark. */
  datatype ProxyClock = ProxyClock(check: Instant, write: Instant)

  ghost function AuthenticateDevice(t: Tables, cfg: Config, token: string, clock: ProxyClock,
                                    faults: set<Point>): (Tables, Reply)
  {
    if ReadAccess in faults then (t, ServerError)
    else
      var found := FindAccess(t.access, HashSecret(cfg, token));
      if found.None? then (t, Unauthorized)
      else
        var row := t.access[found.value];
        if row.revokedAt.Some? || Expired(clock.check, row.expiresAt) then (t, Unauthorized)
        else if ReadDevice in faults then (t, ServerError)
        else if row.device !in t.devices || t.devices[row.device].revokedAt.Some? then (t, Unauthorized)
        else if !IsEmailAllowed(cfg, t.devices[row.device].email) then
          var t1 := Unless(Revocation in faults, ExecAll(t, RevokeAllTx(row.device, Unix(clock.write))));
          (if t1.Some? then t1.value else t, Unauthorized)
        else
          (if WriteLastSeen in faults then t else t.(devices := WithLastSeen(t.devices, row.device, Unix(clock.write))),
           Forwarded(row.device, t.devices[row.device].email))
  }

  // ----- steps

  datatype Step =
    | CreateStep(id: Id, interval: int, expiresIn: int, now: Instant, faults: set<Point>)
    | PollStep(id: Id, answer: GitHubAnswer, mint: Mint, pollClock: PollClock, faults: set<Point>)
    | RefreshStep(token: string, mint: Mint, refreshClock: RefreshClock, faults: set<Point>)
    | RevokeStep(token: string, now: Instant, faults: set<Point>)
    | ProxyStep(token: string, proxyClock: ProxyClock, faults: set<Point>)
    | CleanupStep(now: Instant, deletes: nat)
    | RestartStep(config: Config)

  /** The first and the last clock reading of a step. */
  function FirstReading(s: Step, clock: Instant): Instant {
    match s
    case CreateStep(_, _, _, now, _) => now
    case PollStep(_, _, _, c, _) => c.check
    case RefreshStep(_, _, c, _) => c.check
    case RevokeStep(_, now, _) => now
    case ProxyStep(_, c, _) => c.check
    case CleanupStep(now, _) => now
    case RestartStep(_) => clock
  }

  function LastReading(s: Step, clock: Instant): Instant {
    match s
    case CreateStep(_, _, _, now, _) => now
    case PollStep(_, _, _, c, _) => c.consumed
    case RefreshStep(_, _, c, _) => c.rotate
    case RevokeStep(_, now, _) => now
    case ProxyStep(_, c, _) => c.write
    case CleanupStep(now, _) => now
    case RestartStep(_) => clock
  }

  /** The readings inside a step never go back. */
  predicate Ordered(s: Step) {
    match s
    case PollStep(_, _, _, c, _) => c.check <= c.device <= c.issue <= c.status <= c.consumed
    case RefreshStep(_, _, c, _) => c.check <= c.issue <= c.rotate
    case ProxyStep(_, c, _) => c.check <= c.write
    case _ => true
  }

  /** The random ids and the digests of the random tokens that a step draws. */
  function DrawnIds(s: Step): set<Id> {
    match s
    case CreateStep(id, _, _, _, _) => {id}
    case PollStep(_, _, m, _, _) => {m.deviceId, m.accessId, m.refreshId}
    case RefreshStep(_, m, _, _) => {m.accessId, m.refreshId}
    case _ => {}
  }

  function DrawnHashes(s: Step, cfg: Config): set<Digest> {
    match s
    case PollStep(_, _, m, _, _) => {HashSecret(cfg, m.accessToken), HashSecret(cfg, m.refreshToken)}
    case RefreshStep(_, m, _, _) => {HashSecret(cfg, m.accessToken), HashSecret(cfg, m.refreshToken)}
    case _ => {}
  }

  /** `ids` and `hashes` remember everything ever drawn, deleted rows included. */
  datatype World = World(t: Tables, cfg: Config, clock: Instant, ids: set<Id>, hashes: set<Digest>)

  /** The clock does not go back, and what the generator draws has not been drawn before. */
  ghost predicate Enabled(w: World, s: Step) {
    && w.clock <= FirstReading(s, w.clock)
    && Ordered(s)
    && DrawnIds(s) !! w.ids
    && DrawnHashes(s, w.cfg) !! w.hashes
  }

  ghost function Perform(w: World, s: Step): (Tables, Reply) {
    match s
    case CreateStep(id, interval, expiresIn, now, faults) =>
      CreateAuthorization(w.t, id, interval, expiresIn, now, faults)
    case PollStep(id, answer, m, c, faults) => PollAuthorization(w.t, w.cfg, id, answer, m, c, faults)
    case RefreshStep(token, m, c, faults) => RefreshSession(w.t, w.cfg, token, m, c, faults)
    case RevokeStep(token, now, faults) => RevokeCurrentSession(w.t, w.cfg, token, now, faults)
    case ProxyStep(token, c, faults) => AuthenticateDevice(w.t, w.cfg, token, c, faults)
    case CleanupStep(now, deletes) => (Cleaned(w.t, Unix(now), deletes), Silent)
    case RestartStep(_) => (w.t, Silent)
  }

  ghost function Respond(w: World, s: Step): Reply {
    Perform(w, s).1
  }

  ghost function Next(w: World, s: Step): World {
    World(Perform(w, s).0,
          if s.RestartStep? then s.config else w.cfg,
          LastReading(s, w.clock),
          w.ids + DrawnIds(s),
          w.hashes + DrawnHashes(s, w.cfg))
  }

  // ----- runs

  /** Step `n` takes world `n` to world `n + 1`. */
  ghost predicate StepAt(ws: seq<World>, steps: seq<Step>, n: nat)
    requires n < |steps| && |ws| == |steps| + 1
  {
    Enabled(ws[n], steps[n]) && ws[n + 1] == Next(ws[n], steps[n])
  }

  /** A run: any number of steps and the worlds between them. */
  ghost predicate IsRun(ws: seq<World>, steps: seq<Step>) {
    |ws| == |steps| + 1 && forall n :: 0 <= n < |steps| ==> StepAt(ws, steps, n)
  }

  ghost function ReplyAt(ws: seq<World>, steps: seq<Step>, n: nat): Reply
    requires n < |steps| && |ws| == |steps| + 1
  {
    Respond(ws[n], steps[n])
  }

  /** What every step keeps holds until the end of the run. */
  lemma {:induction false} Preserved(ws: seq<World>, steps: seq<Step>, i: nat, j: nat, p: World -> bool)
    requires IsRun(ws, steps) && i <= j < |ws| && p(ws[i])
    requires forall v, s :: p(v) && Enabled(v, s) ==> p(Next(v, s))
    ensures p(ws[j])
    decreases j
  {
    if i < j {
      Preserved(ws, steps, i, j - 1, p);
      assert StepAt(ws, steps, j - 1);
    }
  }

  /** A freshly created database file. */
  ghost predicate Initial(w: World) {
    w.t == EMPTY && w.ids == {} && w.hashes == {}
  }
}
