/** The races of Races.dfy happen: whole interleavings that reach them from an empty file. */
module RaceRuns {
  import opened Base
  import opened Tables
  import opened Broker
  import opened Invariants
  import opened Jobs
  import opened Alone
  import opened Forest
  import opened ForestLaws
  import opened Races
  import opened Samples

  // ----- building interleavings

  ghost predicate Leads(ss: seq<System>, turns: seq<Turn>, s: System, e: System) {
    IsInterleaving(ss, turns) && ss[0] == s && ss[|turns|] == e
  }

  /** Some interleaving leads from one system to the other. */
  ghost predicate Reaches(s: System, e: System) {
    exists ss, turns :: Leads(ss, turns, s, e)
  }

  lemma ReachesItself(s: System)
    ensures Reaches(s, s)
  {
    assert Leads([s], [], s, s);
  }

  lemma ReachesCall(s: System, e: System, k: nat, ok: bool)
    requires Reaches(s, e) && CanCall(e, k)
    ensures Reaches(s, CallStep(e, k, ok))
  {
    var ss, turns :| Leads(ss, turns, s, e);
    var ss1, turns1 := ss + [CallStep(e, k, ok)], turns + [Turn(k, ok)];
    forall n | 0 <= n < |turns1|
      ensures CallAt(ss1, turns1, n)
    {
      if n < |turns| {
        assert CallAt(ss, turns, n);
      }
    }
    assert Leads(ss1, turns1, s, CallStep(e, k, ok));
  }

  /** A job may make all its remaining calls in a row. */
  lemma {:induction false} ReachesAlone(s: System, e: System, k: nat) returns (e1: System)
    requires Reaches(s, e) && k < |e.jobs|
    ensures Reaches(s, e1)
    ensures var (t1, reply) := RunAlone(e.t, e.jobs[k]);
            e1.t == t1 && e1.jobs == e.jobs[k := Finished(reply)]
    decreases Size(CallOf(e.jobs[k])) + Later(e.jobs[k])
  {
    if e.jobs[k].Finished? {
      e1 := e;
    } else {
      var next := CallStep(e, k, true);
      ReachesCall(s, e, k, true);
      ResumeFits(e.jobs[k], Effect(e.t, CallOf(e.jobs[k]).value, true).1);
      e1 := ReachesAlone(s, next, k);
      assert next.jobs[k := e1.jobs[k]] == e.jobs[k := e1.jobs[k]];
    }
  }

  // ----- a phone is paired

  /** GitHub answers in time with an e-mail that the list names. */
  ghost predicate Pairable(q: Polling, expiresIn: int, now: Instant) {
    && q.answer.TokenWithEmails? && PrimaryEmail(q.answer.emails) != ""
    && IsEmailAllowed(q.cfg, PrimaryEmail(q.answer.emails))
    && !Expired(q.clock.check, Unix(now + expiresIn * 1_000_000_000))
  }

  function FirstRow(q: Polling): RefreshRow {
    RefreshRow(q.mint.deviceId, HashSecret(q.cfg, q.mint.refreshToken), None,
               Unix(q.clock.issue), Unix(q.clock.issue + q.cfg.refreshTTL), None, None)
  }

  /** One device with its two sessions, and no other. */
  ghost predicate JustPaired(t: Tables, q: Polling) {
    && t.refresh == map[q.mint.refreshId := FirstRow(q)]
    && q.mint.deviceId in t.devices && t.devices[q.mint.deviceId].revokedAt.None?
    && t.access == map[q.mint.accessId := AccessRow(q.mint.deviceId, HashSecret(q.cfg, q.mint.accessToken),
                                                    Unix(q.clock.issue), Unix(q.clock.issue + q.cfg.accessTTL), None)]
  }

  lemma PairedTables(q: Polling, interval: int, expiresIn: int, now: Instant)
    requires Pairable(q, expiresIn, now)
    ensures var t1 := CreateAuthorization(EMPTY, q.id, interval, expiresIn, now, {}).0;
            JustPaired(PollAuthorization(t1, q.cfg, q.id, q.answer, q.mint, q.clock, {}).0, q)
  {
    var t1 := CreateAuthorization(EMPTY, q.id, interval, expiresIn, now, {}).0;
    var w := World(t1, q.cfg, 0, {}, {});
    var s := PollStep(q.id, q.answer, q.mint, q.clock, {});
    PollApproves(w, s);
    ApproveEffect(w, s);
  }

  /** The first job creates a transaction, the second polls it to a pairing. */
  lemma Paired(jobs: seq<Job>, q: Polling, interval: int, expiresIn: int, now: Instant) returns (e: System)
    requires |jobs| >= 2 && jobs[0] == CreateAuth(q.id, interval, expiresIn, now) && jobs[1] == PollLookup(q)
    requires Pairable(q, expiresIn, now)
    ensures Reaches(System(EMPTY, jobs, map[], 0), e) && JustPaired(e.t, q)
    ensures |e.jobs| == |jobs| && forall k :: 2 <= k < |jobs| ==> e.jobs[k] == jobs[k]
  {
    var s := System(EMPTY, jobs, map[], 0);
    ReachesItself(s);
    var e1 := ReachesAlone(s, s, 0);
    SerialCreate(EMPTY, q.id, interval, expiresIn, now);
    e := ReachesAlone(s, e1, 1);
    SerialPoll(e1.t, q);
    PairedTables(q, interval, expiresIn, now);
  }

  // ----- a refresh gets as far as its writes

  /** A refresh of the phone's first token, before it expires. */
  ghost predicate InTime(r: Refreshing, q: Polling) {
    && r.cfg == q.cfg && r.token == q.mint.refreshToken && r.mint.accessId != q.mint.accessId
    && !Expired(r.clock.check, Unix(q.clock.issue + q.cfg.refreshTTL))
  }

  lemma Admitted(s: System, e: System, k: nat, r: Refreshing, q: Polling) returns (e1: System)
    requires Reaches(s, e) && k < |e.jobs| && e.jobs[k] == RefreshLookup(r)
    requires InTime(r, q) && JustPaired(e.t, q)
    ensures Reaches(s, e1) && e1.t == e.t
    ensures e1.jobs == e.jobs[k := RefreshAccess(r, q.mint.refreshId, FirstRow(q))]
  {
    var h := HashSecret(r.cfg, r.token);
    assert e.t.refresh[q.mint.refreshId] == FirstRow(q);
    RefreshLookupIs(e.t.refresh, q.mint.refreshId);
    ReachesCall(s, e, k, true);
    var e0 := CallStep(e, k, true);
    assert e0.t == e.t && e0.jobs[k] == RefreshDevice(r, q.mint.refreshId, FirstRow(q));
    ReachesCall(s, e0, k, true);
    e1 := CallStep(e0, k, true);
    assert e1.jobs[k] == RefreshAccess(r, q.mint.refreshId, FirstRow(q));
  }

  lemma AccessInserted(s: System, e: System, k: nat, r: Refreshing, id: Id, row: RefreshRow) returns (e1: System)
    requires Reaches(s, e) && k < |e.jobs| && e.jobs[k] == RefreshAccess(r, id, row) && r.mint.accessId !in e.t.access
    ensures Reaches(s, e1) && e1.t.refresh == e.t.refresh
    ensures e1.t.access.Keys == e.t.access.Keys + {r.mint.accessId}
    ensures e1.jobs == e.jobs[k := RefreshRotate(r, id, row)]
  {
    ExecOne(e.t, CallOf(e.jobs[k]).value.stmts[0]);
    ReachesCall(s, e, k, true);
    e1 := CallStep(e, k, true);
  }

  // ----- two refreshes with one token

  /** A creation, a poll and two refreshes of the token the poll hands out, with different random strings. */
  ghost predicate TwoRefreshes(jobs: seq<Job>, q: Polling, a: Refreshing, b: Refreshing,
                               interval: int, expiresIn: int, now: Instant)
  {
    && jobs == [CreateAuth(q.id, interval, expiresIn, now), PollLookup(q), RefreshLookup(a), RefreshLookup(b)]
    && Pairable(q, expiresIn, now) && InTime(a, q) && InTime(b, q)
    && a.mint.accessId != b.mint.accessId && Disjoint(jobs)
  }

  /** Both refreshes look the token up before either rotates it. */
  lemma BothAboutToRotate(jobs: seq<Job>, q: Polling, a: Refreshing, b: Refreshing, interval: int, expiresIn: int,
                          now: Instant)
    returns (e: System)
    requires TwoRefreshes(jobs, q, a, b, interval, expiresIn, now)
    ensures Reaches(System(EMPTY, jobs, map[], 0), e) && |e.jobs| == 4
    ensures e.jobs[2] == RefreshRotate(a, q.mint.refreshId, FirstRow(q))
    ensures e.jobs[3] == RefreshRotate(b, q.mint.refreshId, FirstRow(q))
    ensures q.mint.refreshId in e.t.refresh
  {
    var s := System(EMPTY, jobs, map[], 0);
    e := Paired(jobs, q, interval, expiresIn, now);
    assert e.jobs[2] == jobs[2] && e.jobs[3] == jobs[3];
    e := BothReady(s, e, q, a, b);
  }

  lemma BothReady(s: System, e: System, q: Polling, a: Refreshing, b: Refreshing) returns (e1: System)
    requires Reaches(s, e) && |e.jobs| == 4 && e.jobs[2] == RefreshLookup(a) && e.jobs[3] == RefreshLookup(b)
    requires InTime(a, q) && InTime(b, q) && a.mint.accessId != b.mint.accessId && JustPaired(e.t, q)
    ensures Reaches(s, e1) && |e1.jobs| == 4 && q.mint.refreshId in e1.t.refresh
    ensures e1.jobs[2] == RefreshRotate(a, q.mint.refreshId, FirstRow(q))
    ensures e1.jobs[3] == RefreshRotate(b, q.mint.refreshId, FirstRow(q))
  {
    var e0 := BothAdmitted(s, e, q, a, b);
    e1 := BothInserted(s, e0, a, b, q.mint.refreshId, FirstRow(q));
  }

  lemma BothAdmitted(s: System, e: System, q: Polling, a: Refreshing, b: Refreshing) returns (e1: System)
    requires Reaches(s, e) && |e.jobs| == 4 && e.jobs[2] == RefreshLookup(a) && e.jobs[3] == RefreshLookup(b)
    requires InTime(a, q) && InTime(b, q) && JustPaired(e.t, q)
    ensures Reaches(s, e1) && |e1.jobs| == 4 && e1.t == e.t
    ensures e1.jobs[2] == RefreshAccess(a, q.mint.refreshId, FirstRow(q))
    ensures e1.jobs[3] == RefreshAccess(b, q.mint.refreshId, FirstRow(q))
  {
    var e0 := Admitted(s, e, 2, a, q);
    e1 := Admitted(s, e0, 3, b, q);
  }

  lemma BothInserted(s: System, e: System, a: Refreshing, b: Refreshing, id: Id, row: RefreshRow) returns (e1: System)
    requires Reaches(s, e) && |e.jobs| == 4 && e.jobs[2] == RefreshAccess(a, id, row)
    requires e.jobs[3] == RefreshAccess(b, id, row)
    requires a.mint.accessId !in e.t.access && b.mint.accessId !in e.t.access && a.mint.accessId != b.mint.accessId
    ensures Reaches(s, e1) && |e1.jobs| == 4 && e1.t.refresh == e.t.refresh
    ensures e1.jobs[2] == RefreshRotate(a, id, row) && e1.jobs[3] == RefreshRotate(b, id, row)
  {
    var e0 := AccessInserted(s, e, 2, a, id, row);
    e1 := AccessInserted(s, e0, 3, b, id, row);
  }

  /**
   * From an empty file and four requests at their start, an interleaving without any failure
   * answers both refreshes with a new pair and leaves the phone two rows to rotate.
   */
  lemma OneTokenTwoPairs(jobs: seq<Job>, q: Polling, a: Refreshing, b: Refreshing, interval: int, expiresIn: int,
                         now: Instant)
    returns (ss: seq<System>, turns: seq<Turn>)
    requires TwoRefreshes(jobs, q, a, b, interval, expiresIn, now)
    ensures IsInterleaving(ss, turns) && ss[0] == System(EMPTY, jobs, map[], 0) && ForestInv(ss[0])
    ensures var e := ss[|turns|];
            && |e.jobs| == 4 && e.jobs[2].Finished? && e.jobs[3].Finished?
            && e.jobs[2].reply.RefreshedWith? && e.jobs[3].reply.RefreshedWith?
            && !OneLive(e.t.refresh)
  {
    var s := System(EMPTY, jobs, map[], 0);
    FreshJobsFormAForest(jobs);
    var e := BothAboutToRotate(jobs, q, a, b, interval, expiresIn, now);
    ReachedForest(s, e);
    var e1 := BothRotated(s, e);
    ss, turns :| Leads(ss, turns, s, e1);
  }

  lemma BothRotated(s: System, e: System) returns (e1: System)
    requires Reaches(s, e) && ForestInv(e) && |e.jobs| == 4
    requires e.jobs[2].RefreshRotate? && e.jobs[3].RefreshRotate? && e.jobs[2].id == e.jobs[3].id
    requires e.jobs[2].id in e.t.refresh
    ensures Reaches(s, e1) && |e1.jobs| == 4 && e1.jobs[2].Finished? && e1.jobs[3].Finished?
    ensures e1.jobs[2].reply.RefreshedWith? && e1.jobs[3].reply.RefreshedWith? && !OneLive(e1.t.refresh)
  {
    TwoLookupsTwoRotations(e, 2, 3);
    var e2 := CallStep(e, 2, true);
    ReachesCall(s, e, 2, true);
    assert e2.jobs[3] == e.jobs[3];
    var e3 := CallStep(e2, 3, true);
    ReachesCall(s, e2, 3, true);
    assert e3.jobs[2] == e2.jobs[2];
    e1 := BothSent(s, e3);
  }

  lemma BothSent(s: System, e: System) returns (e1: System)
    requires Reaches(s, e) && |e.jobs| == 4 && e.jobs[2].AuditThen? && e.jobs[3].AuditThen?
    ensures Reaches(s, e1) && e1.t == e.t && |e1.jobs| == 4
    ensures e1.jobs[2] == Finished(e.jobs[2].reply) && e1.jobs[3] == Finished(e.jobs[3].reply)
  {
    var e2 := SentReply(s, e, 2);
    e1 := SentReply(s, e2, 3);
  }

  lemma ReachedForest(s: System, e: System)
    requires ForestInv(s) && Reaches(s, e)
    ensures ForestInv(e)
  {
    var ss, turns :| Leads(ss, turns, s, e);
    ForestForever(ss, turns, 0, |turns|);
  }

  /** The audit row that precedes the answer. */
  lemma SentReply(s: System, e: System, k: nat) returns (e1: System)
    requires Reaches(s, e) && k < |e.jobs| && e.jobs[k].AuditThen?
    ensures Reaches(s, e1) && e1.t == e.t && e1.jobs == e.jobs[k := Finished(e.jobs[k].reply)]
  {
    ExecOne(e.t, Audit);
    ReachesCall(s, e, k, true);
    e1 := CallStep(e, k, true);
  }

  // ----- a refresh around a DELETE

  ghost predicate RefreshAndDelete(jobs: seq<Job>, q: Polling, a: Refreshing, d: Deleting,
                                   interval: int, expiresIn: int, now: Instant)
  {
    && jobs == [CreateAuth(q.id, interval, expiresIn, now), PollLookup(q), RefreshLookup(a), DeleteLookup(d)]
    && Pairable(q, expiresIn, now) && InTime(a, q)
    && d.cfg == q.cfg && d.token == q.mint.accessToken && Disjoint(jobs)
  }

  lemma DeletedTables(t: Tables, q: Polling, d: Deleting)
    requires JustPaired(t, q) && d.cfg == q.cfg && d.token == q.mint.accessToken
    ensures var (t1, reply) := RevokeCurrentSession(t, d.cfg, d.token, d.now, {});
            && reply == NoContent && NothingUnrevoked(t1, q.mint.deviceId)
            && t1.refresh.Keys == t.refresh.Keys && t1.access.Keys == t.access.Keys
            && q.mint.refreshId in t1.refresh && t1.refresh[q.mint.refreshId].device == q.mint.deviceId
  {
    assert t.access[q.mint.accessId].hash == HashSecret(d.cfg, d.token);
    AccessLookupIs(t.access, q.mint.accessId);
    RevokeAllEffect(t, q.mint.deviceId, Unix(d.now));
  }

  /** A refresh that is past its checks makes its writes. */
  lemma WritesAfterAll(s: System, r: Refreshing, id: Id, row: RefreshRow) returns (e: System)
    requires ForestInv(s) && |s.jobs| == 4 && s.jobs[2] == RefreshAccess(r, id, row)
    requires r.mint.accessId !in s.t.access && id in s.t.refresh
    ensures Reaches(s, e) && |e.jobs| == 4 && e.jobs[2].Finished? && e.jobs[2].reply.RefreshedWith?
    ensures !NothingUnrevoked(e.t, s.t.refresh[id].device)
  {
    ReachesItself(s);
    var e1 := AccessInserted(s, s, 2, r, id, row);
    ReachedForest(s, e1);
    e := RotatesAfterAll(s, e1, r, id, row);
  }

  lemma RotatesAfterAll(s: System, e: System, r: Refreshing, id: Id, row: RefreshRow) returns (e1: System)
    requires Reaches(s, e) && ForestInv(e) && |e.jobs| == 4 && e.jobs[2] == RefreshRotate(r, id, row)
    requires id in e.t.refresh
    ensures Reaches(s, e1) && |e1.jobs| == 4 && e1.jobs[2].Finished? && e1.jobs[2].reply.RefreshedWith?
    ensures !NothingUnrevoked(e1.t, e.t.refresh[id].device)
  {
    var j := e.jobs[2];
    assert ReservedOk(j, e.born) && FoundOk(j, e.t.refresh, e.born);
    RotateCall(e.t, e.born, j, true);
    ReachesCall(s, e, 2, true);
    var e2 := CallStep(e, 2, true);
    var newId := r.mint.refreshId;
    assert newId in e2.t.refresh && e2.t.refresh[newId].revokedAt.None?;
    e1 := SentReply(s, e2, 2);
  }

  lemma DeletedMeanwhile(jobs: seq<Job>, q: Polling, a: Refreshing, d: Deleting, interval: int, expiresIn: int,
                         now: Instant)
    returns (middle: System)
    requires RefreshAndDelete(jobs, q, a, d, interval, expiresIn, now)
    ensures Reaches(System(EMPTY, jobs, map[], 0), middle) && |middle.jobs| == 4
    ensures middle.jobs[2] == RefreshAccess(a, q.mint.refreshId, FirstRow(q)) && middle.jobs[3] == Finished(NoContent)
    ensures NothingUnrevoked(middle.t, q.mint.deviceId) && a.mint.accessId !in middle.t.access
    ensures q.mint.refreshId in middle.t.refresh && middle.t.refresh[q.mint.refreshId].device == q.mint.deviceId
  {
    var s := System(EMPTY, jobs, map[], 0);
    var e := Paired(jobs, q, interval, expiresIn, now);
    assert e.jobs[2] == jobs[2] && e.jobs[3] == jobs[3];
    middle := DeletedBetween(s, e, q, a, d);
  }

  lemma DeletedBetween(s: System, e: System, q: Polling, a: Refreshing, d: Deleting) returns (middle: System)
    requires Reaches(s, e) && |e.jobs| == 4 && e.jobs[2] == RefreshLookup(a) && e.jobs[3] == DeleteLookup(d)
    requires InTime(a, q) && JustPaired(e.t, q) && d.cfg == q.cfg && d.token == q.mint.accessToken
    ensures Reaches(s, middle) && |middle.jobs| == 4
    ensures middle.jobs[2] == RefreshAccess(a, q.mint.refreshId, FirstRow(q)) && middle.jobs[3] == Finished(NoContent)
    ensures NothingUnrevoked(middle.t, q.mint.deviceId) && a.mint.accessId !in middle.t.access
    ensures q.mint.refreshId in middle.t.refresh && middle.t.refresh[q.mint.refreshId].device == q.mint.deviceId
  {
    var e0 := Admitted(s, e, 2, a, q);
    assert e0.jobs[3] == e.jobs[3];
    middle := DeletedAlone(s, e0, q, d);
    assert middle.jobs[2] == e0.jobs[2];
    assert a.mint.accessId !in middle.t.access.Keys;
  }

  lemma DeletedAlone(s: System, e: System, q: Polling, d: Deleting) returns (e1: System)
    requires Reaches(s, e) && |e.jobs| == 4 && e.jobs[3] == DeleteLookup(d)
    requires JustPaired(e.t, q) && d.cfg == q.cfg && d.token == q.mint.accessToken
    ensures Reaches(s, e1) && e1.jobs == e.jobs[3 := Finished(NoContent)]
    ensures NothingUnrevoked(e1.t, q.mint.deviceId) && e1.t.access.Keys == {q.mint.accessId}
    ensures q.mint.refreshId in e1.t.refresh && e1.t.refresh[q.mint.refreshId].device == q.mint.deviceId
  {
    e1 := ReachesAlone(s, e, 3);
    SerialDelete(e.t, d);
    DeletedTables(e.t, q, d);
    assert e.t.access.Keys == {q.mint.accessId};
  }

  /**
   * A DELETE that is answered while a refresh of the same phone is between its checks and its
   * writes: every session is revoked when it answers, and the refresh then makes new ones.
   */
  lemma ARefreshOutlivesADelete(jobs: seq<Job>, q: Polling, a: Refreshing, d: Deleting, interval: int, expiresIn: int,
                                now: Instant)
    returns (middle: System, e: System)
    requires RefreshAndDelete(jobs, q, a, d, interval, expiresIn, now)
    ensures Reaches(System(EMPTY, jobs, map[], 0), middle) && Reaches(middle, e)
    ensures |middle.jobs| == 4 && middle.jobs[3] == Finished(NoContent) && NothingUnrevoked(middle.t, q.mint.deviceId)
    ensures |e.jobs| == 4 && e.jobs[2].Finished? && e.jobs[2].reply.RefreshedWith?
    ensures !NothingUnrevoked(e.t, q.mint.deviceId)
  {
    FreshJobsFormAForest(jobs);
    middle := DeletedMeanwhile(jobs, q, a, d, interval, expiresIn, now);
    ReachedForest(System(EMPTY, jobs, map[], 0), middle);
    e := WritesAfterAll(middle, a, q.mint.refreshId, FirstRow(q));
  }

  // ----- such requests exist

  const CONFIG := ConfigWith(3600_000_000_000, 3600_000_000_000)
  const POLL := Polling(CONFIG, 1, ANSWER, Mint(2, 3, "1", 4, "22"), PollClock(0, 0, 0, 0, 0))
  const FIRST_REFRESH := Refreshing(CONFIG, "22", Mint(0, 5, "333", 6, "4444"), RefreshClock(0, 0, 0))
  const SECOND_REFRESH := Refreshing(CONFIG, "22", Mint(0, 7, "55555", 8, "666666"), RefreshClock(0, 0, 0))
  const DELETE := Deleting(CONFIG, "1", 0)

  lemma ExampleIsPairable()
    ensures Pairable(POLL, 900, 0)
  {
    NamedOnTheList(3600_000_000_000, 3600_000_000_000);
  }

  lemma SuchRequestsExist()
    ensures TwoRefreshes([CreateAuth(1, 5, 900, 0), PollLookup(POLL), RefreshLookup(FIRST_REFRESH),
                          RefreshLookup(SECOND_REFRESH)],
                         POLL, FIRST_REFRESH, SECOND_REFRESH, 5, 900, 0)
    ensures RefreshAndDelete([CreateAuth(1, 5, 900, 0), PollLookup(POLL), RefreshLookup(FIRST_REFRESH),
                              DeleteLookup(DELETE)],
                             POLL, FIRST_REFRESH, DELETE, 5, 900, 0)
  {
    ExampleIsPairable();
    assert HashSecret(CONFIG, "22") == 2 && HashSecret(CONFIG, "4444") == 4 && HashSecret(CONFIG, "666666") == 6;
  }
}
