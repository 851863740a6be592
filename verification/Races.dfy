/**
 * Overlapping requests at the interleaved grain: when exactly a second refresh with the
 * same token succeeds, and when exactly a request undoes a revocation.
 */
module Races {
  import opened Base
  import opened Tables
  import opened Broker
  import opened Invariants
  import opened Jobs
  import opened Forest
  import opened ForestLaws

  // ----- a second refresh with the same token

  /** A refresh request for the token with this digest that has not been answered yet. */
  predicate Awaits(j: Job, h: Digest) {
    || (j.RefreshLookup? && HashSecret(j.r.cfg, j.r.token) == h)
    || (Found(j).Some? && HashSecret(Found(j).value.0.cfg, Found(j).value.0.token) == h)
  }

  /** The new pair is on its way, or sent. */
  predicate Served(j: Job) {
    (j.AuditThen? || j.Finished?) && j.reply.RefreshedWith?
  }

  predicate Refused(j: Job) {
    j.Finished? && (j.reply == Unauthorized || j.reply == ServerError)
  }

  /** What a refresh that has found its row asks of the tables at its next call. */
  ghost predicate Passes(t: Tables, j: Job, ok: bool) {
    ok &&
    match j
    case RefreshDevice(_, _, row) => row.device in t.devices && t.devices[row.device].revokedAt.None?
    case RefreshAccess(r, _, _) => r.mint.accessId !in t.access
    case RefreshRotate(_, id, _) => id in t.refresh
    case _ => false
  }

  lemma RefreshCall(s: System, k: nat, ok: bool)
    requires ForestInv(s) && CanCall(s, k) && Found(s.jobs[k]).Some?
    ensures var j, j1 := s.jobs[k], CallStep(s, k, ok).jobs[k];
            if !Passes(s.t, j, ok) then Refused(j1)
            else if j.RefreshRotate? then Served(j1)
            else Found(j1) == Found(j)
  {
    var j := s.jobs[k];
    assert ReservedOk(j, s.born) && FoundOk(j, s.t.refresh, s.born);
    match j
    case RefreshDevice(_, _, _) =>
    case RefreshAccess(_, _, _) => ExecOne(s.t, CallOf(j).value.stmts[0]);
    case RefreshRotate(_, _, _) => RotateCall(s.t, s.born, j, ok);
  }

  lemma SpentThrough(ss: seq<System>, turns: seq<Turn>, i: nat, n: nat)
    requires IsInterleaving(ss, turns) && ForestInv(ss[0]) && i < n < |ss|
    requires CallAt(ss, turns, i) && ss[i].jobs[turns[i].job].RefreshRotate? && ss[i + 1].jobs[turns[i].job].AuditThen?
    ensures ForestInv(ss[n]) && SpentHash(ss[n], ss[i].jobs[turns[i].job].row.hash)
  {
    var h := ss[i].jobs[turns[i].job].row.hash;
    SpentAfterRotation(ss, turns, i);
    var p := (s: System) => ForestInv(s) && SpentHash(s, h);
    forall s, k, ok | p(s) && CanCall(s, k)
      ensures p(CallStep(s, k, ok))
    {
      CallKeepsForest(s, k, ok);
      CallKeepsSpent(s, k, ok, h);
    }
    Kept(ss, turns, i + 1, n, p);
  }

  /** All calls that job `l` makes between `i` and `n`, with its row found, pass. */
  ghost predicate AllPass(ss: seq<System>, turns: seq<Turn>, i: nat, n: nat, l: nat)
    requires |ss| == |turns| + 1 && i < n < |ss|
  {
    forall m :: i < m < n && turns[m].job == l && l < |ss[m].jobs| && Found(ss[m].jobs[l]).Some? ==>
      Passes(ss[m].t, ss[m].jobs[l], turns[m].ok)
  }

  /** Where the second request stands: waiting with all calls passed so far, served, or refused. */
  ghost predicate Progress(ss: seq<System>, turns: seq<Turn>, i: nat, n: nat, l: nat, h: Digest)
    requires |ss| == |turns| + 1 && i < n < |ss|
  {
    && l < |ss[i].jobs| && l < |ss[n].jobs|
    && var found := Found(ss[i].jobs[l]).Some?;
       || (Awaits(ss[n].jobs[l], h) && Found(ss[n].jobs[l]) == Found(ss[i].jobs[l]) && AllPass(ss, turns, i, n, l))
       || (Served(ss[n].jobs[l]) && found && AllPass(ss, turns, i, n, l))
       || (Refused(ss[n].jobs[l]) && !(found && AllPass(ss, turns, i, n, l)))
  }

  lemma ProgressStep(ss: seq<System>, turns: seq<Turn>, i: nat, n: nat, l: nat, h: Digest)
    requires IsInterleaving(ss, turns) && i < n < |turns| && ForestInv(ss[n]) && SpentHash(ss[n], h)
    requires Progress(ss, turns, i, n, l, h)
    ensures Progress(ss, turns, i, n + 1, l, h)
  {
    assert CallAt(ss, turns, n);
    var j, ok := ss[n].jobs[l], turns[n].ok;
    assert AllPass(ss, turns, i, n + 1, l) <==>
        AllPass(ss, turns, i, n, l) && (turns[n].job == l && Found(j).Some? ==> Passes(ss[n].t, j, ok));
    if turns[n].job == l {
      if Found(j).Some? {
        RefreshCall(ss[n], l, ok);
      } else if j.RefreshLookup? {
        SpentLookupFails(ss[n], l, ok, h);
      }
    }
  }

  lemma {:induction false} ProgressHolds(ss: seq<System>, turns: seq<Turn>, i: nat, n: nat, l: nat)
    requires IsInterleaving(ss, turns) && ForestInv(ss[0]) && i < n < |ss|
    requires CallAt(ss, turns, i) && ss[i].jobs[turns[i].job].RefreshRotate? && ss[i + 1].jobs[turns[i].job].AuditThen?
    requires l < |ss[i].jobs| && l != turns[i].job && Awaits(ss[i].jobs[l], ss[i].jobs[turns[i].job].row.hash)
    ensures Progress(ss, turns, i, n, l, ss[i].jobs[turns[i].job].row.hash)
    decreases n
  {
    var h := ss[i].jobs[turns[i].job].row.hash;
    if n == i + 1 {
      assert ss[n].jobs[l] == ss[i].jobs[l];
    } else {
      ProgressHolds(ss, turns, i, n - 1, l);
      SpentThrough(ss, turns, i, n - 1);
      ProgressStep(ss, turns, i, n - 1, l, h);
    }
  }

  /**
   * After a rotation has committed (at `i`), another refresh of the same token that was then
   * still unanswered and is answered by `n` gets a pair of its own if and only if its lookup
   * came before that commit and every call it makes afterwards passes: none of them fails,
   * its device is not revoked, and its row is still stored when it rotates it.
   */
  lemma WhenASecondRefreshIsServed(ss: seq<System>, turns: seq<Turn>, i: nat, n: nat, l: nat)
    requires IsInterleaving(ss, turns) && ForestInv(ss[0]) && i < n < |ss|
    requires CallAt(ss, turns, i) && ss[i].jobs[turns[i].job].RefreshRotate? && ss[i + 1].jobs[turns[i].job].AuditThen?
    requires l < |ss[i].jobs| && l != turns[i].job && Awaits(ss[i].jobs[l], ss[i].jobs[turns[i].job].row.hash)
    requires l < |ss[n].jobs| && !Awaits(ss[n].jobs[l], ss[i].jobs[turns[i].job].row.hash)
    ensures Served(ss[n].jobs[l]) <==> Found(ss[i].jobs[l]).Some? && AllPass(ss, turns, i, n, l)
    ensures Served(ss[n].jobs[l]) || Refused(ss[n].jobs[l])
  {
    ProgressHolds(ss, turns, i, n, l);
  }

  // ----- a request that overlaps a revocation

  /** Every session of the device is revoked. */
  ghost predicate NothingUnrevoked(t: Tables, device: Id) {
    && (forall i :: i in t.refresh && t.refresh[i].device == device ==> t.refresh[i].revokedAt.Some?)
    && (forall i :: i in t.access && t.access[i].device == device ==> t.access[i].revokedAt.Some?)
  }

  /** The calls that insert an unrevoked row for a device. */
  ghost predicate InsertsFor(s: System, j: Job, device: Id) {
    match j
    case RefreshAccess(r, _, row) => row.device == device && r.mint.accessId !in s.t.access
    case RefreshRotate(_, id, _) => id in s.t.refresh && s.t.refresh[id].device == device
    case PairAccess(q, _) => q.mint.deviceId == device && q.mint.accessId !in s.t.access
    case PairRefresh(q, _) => q.mint.deviceId == device
    case _ => false
  }

  ghost predicate AccessKept(before: map<Id, AccessRow>, after: map<Id, AccessRow>) {
    forall i :: i in after ==>
      i in before && after[i].device == before[i].device && (before[i].revokedAt.Some? ==> after[i].revokedAt.Some?)
  }

  lemma PlainAccess(t: Tables, s: Stmt)
    requires !s.InsertAccess? && Exec(t, s).Some?
    ensures AccessKept(t.access, Exec(t, s).value.access)
  {
  }

  lemma {:induction false} PlainAccessBatch(t: Tables, stmts: seq<Stmt>)
    requires forall s :: s in stmts ==> !s.InsertAccess?
    requires ExecAll(t, stmts).Some?
    ensures AccessKept(t.access, ExecAll(t, stmts).value.access)
    decreases |stmts|
  {
    if stmts != [] {
      PlainAccess(t, stmts[0]);
      PlainAccessBatch(Exec(t, stmts[0]).value, stmts[1..]);
    }
  }

  lemma AccessInserters(j: Job)
    requires CallOf(j).Some? && CallOf(j).value.Batch? && !j.RefreshAccess? && !j.PairAccess?
    ensures forall s :: s in CallOf(j).value.stmts ==> !s.InsertAccess?
  {
  }

  lemma CallKeepsAccess(t: Tables, j: Job, ok: bool)
    requires CallOf(j).Some? && !j.RefreshAccess? && !j.PairAccess?
    ensures AccessKept(t.access, Effect(t, CallOf(j).value, ok).0.access)
  {
    var call := CallOf(j).value;
    if call.Batch? && ok && ExecAll(t, call.stmts).Some? {
      AccessInserters(j);
      PlainAccessBatch(t, call.stmts);
    }
  }

  lemma AccessInsert(s: System, k: nat, ok: bool, device: Id)
    requires CanCall(s, k) && (s.jobs[k].RefreshAccess? || s.jobs[k].PairAccess?)
    requires NothingUnrevoked(s.t, device)
    ensures !NothingUnrevoked(CallStep(s, k, ok).t, device) <==> ok && InsertsFor(s, s.jobs[k], device)
  {
    var j, t1 := s.jobs[k], CallStep(s, k, ok).t;
    var accessId := if j.RefreshAccess? then j.r.mint.accessId else j.q.mint.accessId;
    ExecOne(s.t, CallOf(j).value.stmts[0]);
    if ok && accessId !in s.t.access {
      assert accessId in t1.access && t1.access[accessId].revokedAt.None?;
    }
  }

  lemma RotationInsert(s: System, k: nat, ok: bool, device: Id)
    requires ForestInv(s) && CanCall(s, k) && s.jobs[k].RefreshRotate?
    requires NothingUnrevoked(s.t, device)
    ensures !NothingUnrevoked(CallStep(s, k, ok).t, device) <==> ok && InsertsFor(s, s.jobs[k], device)
  {
    var j, t1 := s.jobs[k], CallStep(s, k, ok).t;
    assert ReservedOk(j, s.born) && FoundOk(j, s.t.refresh, s.born);
    RotateCall(s.t, s.born, j, ok);
    if ok && j.id in s.t.refresh {
      var (h, newId) := Reserved(j).value;
      RotatedMarks(s.t.refresh, j.id, newId, h, Unix(j.r.clock.rotate), Unix(j.r.clock.issue + j.r.cfg.refreshTTL),
                   device);
      assert t1.access == s.t.access;
    }
  }

  lemma RotatedMarks(rows: map<Id, RefreshRow>, used: Id, id: Id, h: Digest, now: Seconds, until: Seconds, device: Id)
    requires used in rows && id !in rows
    requires forall i :: i in rows && rows[i].device == device ==> rows[i].revokedAt.Some?
    ensures var after := Rotated(rows, used, id, h, now, until);
            (exists i :: i in after && after[i].device == device && after[i].revokedAt.None?)
            <==> rows[used].device == device
  {
    var after := Rotated(rows, used, id, h, now, until);
    assert id in after && after[id].device == rows[used].device && after[id].revokedAt.None?;
  }

  lemma PairingInsert(s: System, k: nat, ok: bool, device: Id)
    requires ForestInv(s) && CanCall(s, k) && s.jobs[k].PairRefresh?
    requires NothingUnrevoked(s.t, device)
    ensures !NothingUnrevoked(CallStep(s, k, ok).t, device) <==> ok && InsertsFor(s, s.jobs[k], device)
  {
    var j, t1 := s.jobs[k], CallStep(s, k, ok).t;
    assert ReservedOk(j, s.born);
    PairCall(s.t, s.born, j, ok);
    CallKeepsAccess(s.t, j, ok);
    if ok {
      var newId := Reserved(j).value.1;
      assert newId in t1.refresh && t1.refresh[newId].revokedAt.None?;
    }
  }

  /** One call: it leaves an unrevoked session if and only if it is such an insert and succeeds. */
  lemma WhenACallUndoesARevocation(s: System, k: nat, ok: bool, device: Id)
    requires ForestInv(s) && CanCall(s, k) && NothingUnrevoked(s.t, device)
    ensures !NothingUnrevoked(CallStep(s, k, ok).t, device) <==> ok && InsertsFor(s, s.jobs[k], device)
  {
    var j := s.jobs[k];
    if j.RefreshAccess? || j.PairAccess? {
      AccessInsert(s, k, ok, device);
    } else if j.RefreshRotate? {
      RotationInsert(s, k, ok, device);
    } else if j.PairRefresh? {
      PairingInsert(s, k, ok, device);
    } else {
      PlainCall(s.t, j, ok);
      CallKeepsAccess(s.t, j, ok);
    }
  }

  // ----- over whole interleavings

  /**
   * The requests that can still bring a session to the device: a refresh that has found a row
   * of it, whatever checks are still to come, and a poll that would pair it.
   */
  predicate InFlight(j: Job, device: Id) {
    || (Found(j).Some? && Found(j).value.2.device == device)
    || ((j.PollLookup? || j.PairDevice? || j.PairAccess? || j.PairRefresh?) && j.q.mint.deviceId == device)
  }

  lemma InsertersAreInFlight(s: System, k: nat, device: Id)
    requires ForestInv(s) && k < |s.jobs| && InsertsFor(s, s.jobs[k], device)
    ensures InFlight(s.jobs[k], device)
  {
    var j := s.jobs[k];
    if j.RefreshAccess? {
      assert Found(j).value.2 == j.row;
      assert InFlight(j, device);
    } else if j.RefreshRotate? {
      assert FoundOk(j, s.t.refresh, s.born) && Found(j).value == (j.r, j.id, j.row);
      assert SameUpToMarks(j.row, s.t.refresh[j.id]);
      assert InFlight(j, device);
    } else {
      assert j.PairAccess? || j.PairRefresh?;
      assert InFlight(j, device);
    }
  }

  lemma RefusedLookup(t: Tables, j: Job, ok: bool, device: Id)
    requires j.RefreshLookup? && NothingUnrevoked(t, device)
    ensures !InFlight(Resume(j, Effect(t, CallOf(j).value, ok).1), device)
  {
  }

  lemma NobodyTakesOff(j: Job, res: Result, device: Id)
    requires !j.RefreshLookup? && !j.OuterBegin? && InFlight(Resume(j, res), device)
    ensures InFlight(j, device)
  {
    if j.PollLookup? {
      assert AfterPollLookup(j.q, res).PairDevice? ==> AfterPollLookup(j.q, res).q == j.q;
    }
  }

  /** Who is in flight afterwards was so before. */
  ghost predicate OnlyLand(before: seq<Job>, after: seq<Job>, device: Id) {
    |after| == |before| && forall k :: 0 <= k < |before| && InFlight(after[k], device) ==> InFlight(before[k], device)
  }

  /** No call puts its request in flight: a lookup that finds a revoked row is refused. */
  lemma CallsOnlyLand(s: System, k: nat, ok: bool, device: Id)
    requires ForestInv(s) && CanCall(s, k) && NothingUnrevoked(s.t, device)
    ensures OnlyLand(s.jobs, CallStep(s, k, ok).jobs, device)
  {
    var j, res := s.jobs[k], Effect(s.t, CallOf(s.jobs[k]).value, ok).1;
    assert CallStep(s, k, ok).jobs == s.jobs[k := Resume(j, res)];
    if j.RefreshLookup? {
      RefusedLookup(s.t, j, ok, device);
    } else if InFlight(Resume(j, res), device) {
      NobodyTakesOff(j, res, device);
    }
  }

  ghost predicate RevokedThrough(ss: seq<System>, i: nat, n: nat, device: Id)
    requires n <= |ss|
  {
    forall m :: i <= m < n ==> NothingUnrevoked(ss[m].t, device)
  }

  lemma {:induction false} InFlightSince(ss: seq<System>, turns: seq<Turn>, i: nat, n: nat, device: Id)
    requires IsInterleaving(ss, turns) && i <= n < |ss| && ForestInv(ss[i]) && RevokedThrough(ss, i, n, device)
    ensures OnlyLand(ss[i].jobs, ss[n].jobs, device)
    decreases n
  {
    if i < n {
      InFlightSince(ss, turns, i, n - 1, device);
      assert CallAt(ss, turns, n - 1);
      LandsNext(ss, turns, i, n - 1, device);
    }
  }

  lemma LandsNext(ss: seq<System>, turns: seq<Turn>, i: nat, m: nat, device: Id)
    requires IsInterleaving(ss, turns) && i <= m < |turns| && ForestInv(ss[i]) && NothingUnrevoked(ss[m].t, device)
    requires CallAt(ss, turns, m) && OnlyLand(ss[i].jobs, ss[m].jobs, device)
    ensures OnlyLand(ss[i].jobs, ss[m + 1].jobs, device)
  {
    ForestForever(ss, turns, i, m);
    CallsOnlyLand(ss[m], turns[m].job, turns[m].ok, device);
  }

  /** A request that was in flight at `i` makes an insert at `m`, and it succeeds. */
  ghost predicate Undoes(ss: seq<System>, turns: seq<Turn>, i: nat, m: nat, device: Id)
    requires |ss| == |turns| + 1 && i <= m < |turns|
  {
    var k := turns[m].job;
    && k < |ss[i].jobs| && InFlight(ss[i].jobs[k], device)
    && turns[m].ok && k < |ss[m].jobs| && InsertsFor(ss[m], ss[m].jobs[k], device)
  }

  /** The call after which a session is unrevoked for the first time belongs to a request that was in flight. */
  lemma UndoneBy(ss: seq<System>, turns: seq<Turn>, i: nat, m: nat, device: Id)
    requires IsInterleaving(ss, turns) && i <= m < |turns| && ForestInv(ss[i])
    requires RevokedThrough(ss, i, m + 1, device)
    requires !NothingUnrevoked(ss[m + 1].t, device)
    ensures Undoes(ss, turns, i, m, device)
  {
    ForestForever(ss, turns, i, m);
    var s, k := ss[m], turns[m].job;
    assert CallAt(ss, turns, m) && NothingUnrevoked(s.t, device);
    WhenACallUndoesARevocation(s, k, turns[m].ok, device);
    InsertersAreInFlight(s, k, device);
    InFlightSince(ss, turns, i, m, device);
  }

  lemma {:induction false} LastRevoked(ss: seq<System>, i: nat, n: nat, device: Id) returns (m: nat)
    requires i <= n < |ss| && NothingUnrevoked(ss[i].t, device) && !NothingUnrevoked(ss[n].t, device)
    ensures i <= m < n && RevokedThrough(ss, i, m + 1, device) && !NothingUnrevoked(ss[m + 1].t, device)
    decreases n
  {
    if RevokedThrough(ss, i, n, device) {
      m := n - 1;
    } else {
      var l: nat :| i <= l < n && !NothingUnrevoked(ss[l].t, device);
      m := LastRevoked(ss, i, l, device);
    }
  }

  lemma FirstUndone(ss: seq<System>, turns: seq<Turn>, i: nat, n: nat, device: Id) returns (m: nat)
    requires IsInterleaving(ss, turns) && i <= n < |ss| && ForestInv(ss[i])
    requires NothingUnrevoked(ss[i].t, device) && !NothingUnrevoked(ss[n].t, device)
    ensures i <= m < n && Undoes(ss, turns, i, m, device)
  {
    m := LastRevoked(ss, i, n, device);
    UndoneBy(ss, turns, i, m, device);
  }

  /**
   * When exactly a revocation is undone. Let every session of a device be revoked at `i`. At
   * some later moment one is not, if and only if a request that was in flight at `i` made one
   * of its inserts by then, and it succeeded.
   */
  lemma WhenARevocationIsUndone(ss: seq<System>, turns: seq<Turn>, i: nat, n: nat, device: Id)
    requires IsInterleaving(ss, turns) && ForestInv(ss[0]) && i <= n < |ss| && NothingUnrevoked(ss[i].t, device)
    ensures (exists m :: i <= m <= n && !NothingUnrevoked(ss[m].t, device)) <==>
            (exists m :: i <= m < n && Undoes(ss, turns, i, m, device))
  {
    ForestForever(ss, turns, 0, i);
    forall m | i <= m <= n && !NothingUnrevoked(ss[m].t, device)
      ensures exists l :: i <= l < n && Undoes(ss, turns, i, l, device)
    {
      var l := FirstUndone(ss, turns, i, m, device);
    }
    forall m | i <= m < n && Undoes(ss, turns, i, m, device)
      ensures exists l :: i <= l <= n && !NothingUnrevoked(ss[l].t, device)
    {
      if NothingUnrevoked(ss[m].t, device) {
        ForestForever(ss, turns, 0, m);
        assert CallAt(ss, turns, m);
        WhenACallUndoesARevocation(ss[m], turns[m].job, turns[m].ok, device);
        assert !NothingUnrevoked(ss[m + 1].t, device);
      }
    }
  }

  /**
   * Revocation is absorbing here too for all requests that come after it: with nobody in flight
   * at `i`, every session of the device is revoked from then on.
   */
  lemma RevocationHoldsWithNobodyInFlight(ss: seq<System>, turns: seq<Turn>, i: nat, n: nat, device: Id)
    requires IsInterleaving(ss, turns) && ForestInv(ss[0]) && i <= n < |ss| && NothingUnrevoked(ss[i].t, device)
    requires forall k :: 0 <= k < |ss[i].jobs| ==> !InFlight(ss[i].jobs[k], device)
    ensures NothingUnrevoked(ss[n].t, device)
  {
    if !NothingUnrevoked(ss[n].t, device) {
      ForestForever(ss, turns, 0, i);
      var m := FirstUndone(ss, turns, i, n, device);
      assert false;
    }
  }

  /** A refresh that had only found its row is in flight too: its device check does not see the revocation. */
  lemma ALookedUpRefreshUndoesARevocation(s: System, k: nat, device: Id)
    requires ForestInv(s) && k < |s.jobs| && s.jobs[k].RefreshDevice? && s.jobs[k].row.device == device
    requires NothingUnrevoked(s.t, device) && device in s.t.devices && s.t.devices[device].revokedAt.None?
    requires s.jobs[k].r.mint.accessId !in s.t.access
    ensures var s1 := CallStep(s, k, true); CanCall(s1, k) && !NothingUnrevoked(CallStep(s1, k, true).t, device)
  {
    var s1 := CallStep(s, k, true);
    assert s1.t == s.t && s1.jobs[k].RefreshAccess?;
    AccessInsert(s1, k, true, device);
  }
}
