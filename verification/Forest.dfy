/**
 * The refresh forest at the interleaved grain: any number of jobs, one call of
 * internal/db per step, any order, any call failing.
 */
module Forest {
  import opened Base
  import opened Tables
  import opened Broker
  import opened Invariants
  import opened Jobs

  /** The key a digest was first stored under, and its place in the order of insertion. */
  datatype Birth = Birth(id: Id, rank: nat)

  /** `born` remembers every refresh row ever inserted, deleted ones included. */
  datatype System = System(t: Tables, jobs: seq<Job>, born: map<Digest, Birth>, next: nat)

  /** The digest and the key under which a job will insert a refresh row, if it still can. */
  function Reserved(j: Job): Option<(Digest, Id)> {
    match j
    case RefreshLookup(r) => Some((HashSecret(r.cfg, r.mint.refreshToken), r.mint.refreshId))
    case RefreshDevice(r, _, _) => Some((HashSecret(r.cfg, r.mint.refreshToken), r.mint.refreshId))
    case RefreshAccess(r, _, _) => Some((HashSecret(r.cfg, r.mint.refreshToken), r.mint.refreshId))
    case RefreshRotate(r, _, _) => Some((HashSecret(r.cfg, r.mint.refreshToken), r.mint.refreshId))
    case OuterBegin(r, _, _) => Some((HashSecret(r.cfg, r.mint.refreshToken), r.mint.refreshId))
    case PollLookup(q) => Some((HashSecret(q.cfg, q.mint.refreshToken), q.mint.refreshId))
    case PairDevice(q, _) => Some((HashSecret(q.cfg, q.mint.refreshToken), q.mint.refreshId))
    case PairAccess(q, _) => Some((HashSecret(q.cfg, q.mint.refreshToken), q.mint.refreshId))
    case PairRefresh(q, _) => Some((HashSecret(q.cfg, q.mint.refreshToken), q.mint.refreshId))
    case _ => None
  }

  /** The row a refresh job found, with the token it presented. */
  function Found(j: Job): Option<(Refreshing, Id, RefreshRow)> {
    match j
    case RefreshDevice(r, id, row) => Some((r, id, row))
    case RefreshAccess(r, id, row) => Some((r, id, row))
    case RefreshRotate(r, id, row) => Some((r, id, row))
    case _ => None
  }

  /** The job's next call inserts its reserved row, if it succeeds. */
  predicate Inserts(j: Job) {
    j.RefreshRotate? || j.PairRefresh?
  }

  /** Job `k` makes its next call as one step. */
  ghost function CallStep(s: System, k: nat, ok: bool): System
    requires k < |s.jobs| && CallOf(s.jobs[k]).Some?
  {
    var j := s.jobs[k];
    var (t1, res) := Effect(s.t, CallOf(j).value, ok);
    var inserted := Inserts(j) && res.Done?;
    System(t1, s.jobs[k := Resume(j, res)],
           if inserted then s.born[Reserved(j).value.0 := Birth(Reserved(j).value.1, s.next)] else s.born,
           if inserted then s.next + 1 else s.next)
  }

  // ----- the invariant

  ghost predicate BornOk(born: map<Digest, Birth>, next: nat) {
    && (forall h :: h in born ==> born[h].rank < next)
    && (forall h, g :: h in born && g in born && born[h].id == born[g].id ==> h == g)
  }

  /** Stored rows sit where their digest was born, under parents born earlier. */
  ghost predicate RowsOk(rows: map<Id, RefreshRow>, born: map<Digest, Birth>) {
    && (forall i :: i in rows ==> rows[i].hash in born && born[rows[i].hash].id == i)
    && (forall i :: i in rows && rows[i].parent.Some? ==>
          rows[i].parent.value in born && born[rows[i].parent.value].rank < born[rows[i].hash].rank)
    && ParentsSpent(rows)
  }

  /** A digest still reserved is not born, nor is its key. */
  ghost predicate ReservedOk(j: Job, born: map<Digest, Birth>) {
    Reserved(j).Some? ==> Reserved(j).value.0 !in born && forall h :: h in born ==> born[h].id != Reserved(j).value.1
  }

  /** The row a refresh job holds is the one its digest was born as, with at most new marks since. */
  ghost predicate FoundOk(j: Job, rows: map<Id, RefreshRow>, born: map<Digest, Birth>) {
    Found(j).Some? ==>
      var (r, id, row) := Found(j).value;
      && HashSecret(r.cfg, r.token) == row.hash && row.hash in born && born[row.hash].id == id
      && (id in rows ==> SameUpToMarks(row, rows[id]))
  }

  ghost predicate Disjoint(jobs: seq<Job>) {
    forall k, l ::
      && 0 <= k < |jobs| && 0 <= l < |jobs| && k != l
      && Reserved(jobs[k]).Some? && Reserved(jobs[l]).Some? ==>
        && Reserved(jobs[k]).value.0 != Reserved(jobs[l]).value.0
        && Reserved(jobs[k]).value.1 != Reserved(jobs[l]).value.1
  }

  ghost predicate ForestInv(s: System) {
    && BornOk(s.born, s.next)
    && RowsOk(s.t.refresh, s.born)
    && Disjoint(s.jobs)
    && (forall k :: 0 <= k < |s.jobs| ==> ReservedOk(s.jobs[k], s.born) && FoundOk(s.jobs[k], s.t.refresh, s.born))
    && (forall k :: 0 <= k < |s.jobs| ==> !s.jobs[k].OuterBegin?)
  }

  // ----- what one call does to the refresh table

  /** No call changes anything about a stored row but its marks, and marks never clear. */
  ghost predicate RowsKept(before: map<Id, RefreshRow>, after: map<Id, RefreshRow>) {
    forall i :: i in before && i in after ==> SameUpToMarks(before[i], after[i])
  }

  /** What a statement that neither inserts nor rotates a refresh row does to that table. */
  lemma PlainStatement(t: Tables, s: Stmt)
    requires !s.InsertRefresh? && !s.InsertSuccessor? && !s.MarkRotated? && Exec(t, s).Some?
    ensures OnlyMarked(t.refresh, Exec(t, s).value.refresh)
  {
  }

  ghost predicate OnlyMarked(before: map<Id, RefreshRow>, after: map<Id, RefreshRow>) {
    forall i :: i in after ==> i in before && SameUpToMarks(before[i], after[i])
  }

  lemma {:induction false} PlainBatch(t: Tables, stmts: seq<Stmt>)
    requires forall s :: s in stmts ==> !s.InsertRefresh? && !s.InsertSuccessor? && !s.MarkRotated?
    requires ExecAll(t, stmts).Some?
    ensures OnlyMarked(t.refresh, ExecAll(t, stmts).value.refresh)
    decreases |stmts|
  {
    if stmts != [] {
      var t1 := Exec(t, stmts[0]).value;
      PlainStatement(t, stmts[0]);
      PlainBatch(t1, stmts[1..]);
    }
  }

  lemma PlainStatements(j: Job)
    requires CallOf(j).Some? && CallOf(j).value.Batch? && !Inserts(j)
    ensures forall s :: s in CallOf(j).value.stmts ==> !s.InsertRefresh? && !s.InsertSuccessor? && !s.MarkRotated?
  {
  }

  /** A call that inserts no refresh row. */
  lemma PlainCall(t: Tables, j: Job, ok: bool)
    requires CallOf(j).Some? && !Inserts(j)
    ensures OnlyMarked(t.refresh, Effect(t, CallOf(j).value, ok).0.refresh)
  {
    var call := CallOf(j).value;
    if call.Batch? && ok && ExecAll(t, call.stmts).Some? {
      PlainStatements(j);
      PlainBatch(t, call.stmts);
    }
  }

  /** The rotation: fails as a whole when cleanup took the row, or marks it and adds its successor. */
  lemma RotateCall(t: Tables, born: map<Digest, Birth>, j: Job, ok: bool)
    requires j.RefreshRotate? && RowsOk(t.refresh, born) && FoundOk(j, t.refresh, born) && ReservedOk(j, born)
    ensures var (t1, res) := Effect(t, CallOf(j).value, ok);
            var (h, newId) := Reserved(j).value;
            if ok && j.id in t.refresh
            then && res == Done
                 && t1 == t.(refresh := Rotated(t.refresh, j.id, newId, h, Unix(j.r.clock.rotate),
                                                Unix(j.r.clock.issue + j.r.cfg.refreshTTL)))
            else res == Failed && t1 == t
  {
    var (h, newId) := Reserved(j).value;
    var now, until := Unix(j.r.clock.rotate), Unix(j.r.clock.issue + j.r.cfg.refreshTTL);
    assert newId !in t.refresh;
    assert RefreshHashesUnique(t.refresh);
    if j.id in t.refresh {
      RotateEffect(t, j.id, newId, h, now, until);
    } else {
      ExecAllTwo(t, MarkRotated(j.id, now), InsertSuccessor(newId, j.row.hash, h, now, until));
      assert forall i :: i in t.refresh ==> t.refresh[i].hash != j.row.hash;
    }
  }

  lemma PairCall(t: Tables, born: map<Digest, Birth>, j: Job, ok: bool)
    requires j.PairRefresh? && RowsOk(t.refresh, born) && ReservedOk(j, born)
    ensures var (t1, res) := Effect(t, CallOf(j).value, ok);
            var (h, newId) := Reserved(j).value;
            if ok then && res == Done
                       && t1.refresh == t.refresh[
                            newId := RefreshRow(j.q.mint.deviceId, h, None, Unix(j.q.clock.issue),
                                                Unix(j.q.clock.issue + j.q.cfg.refreshTTL), None, None)]
            else res == Failed && t1 == t
  {
    ExecOne(t, CallOf(j).value.stmts[0]);
  }

  // ----- preservation

  lemma PlainRowsOk(rows: map<Id, RefreshRow>, after: map<Id, RefreshRow>, born: map<Digest, Birth>)
    requires RowsOk(rows, born) && OnlyMarked(rows, after)
    ensures RowsOk(after, born)
  {
  }

  lemma RotatedRowsOk(rows: map<Id, RefreshRow>, born: map<Digest, Birth>, next: nat, used: Id, id: Id, h: Digest,
                      now: Seconds, until: Seconds)
    requires BornOk(born, next) && RowsOk(rows, born) && used in rows && h !in born
    requires forall g :: g in born ==> born[g].id != id
    ensures RowsOk(Rotated(rows, used, id, h, now, until), born[h := Birth(id, next)])
  {
    var after, born1 := Rotated(rows, used, id, h, now, until), born[h := Birth(id, next)];
    assert forall i :: i in rows ==> i != id;
    assert forall i :: i in after && i != id ==> i in rows && SameUpToMarks(rows[i], after[i]);
  }

  lemma PairedRowsOk(rows: map<Id, RefreshRow>, born: map<Digest, Birth>, next: nat, id: Id, row: RefreshRow)
    requires BornOk(born, next) && RowsOk(rows, born) && row.hash !in born && row.parent.None?
    requires forall g :: g in born ==> born[g].id != id
    ensures RowsOk(rows[id := row], born[row.hash := Birth(id, next)])
  {
  }

  /** What a job reserves after a call it reserved before, unless the call inserted it. */
  ghost predicate ReservesNoMore(j: Job, res: Result) {
    Reserved(Resume(j, res)).Some? ==> Reserved(Resume(j, res)) == Reserved(j) && !(Inserts(j) && res.Done?)
  }

  /** What a job has found after a call it had found before, or the call was the lookup. */
  ghost predicate FoundByLookup(j: Job, res: Result) {
    Found(Resume(j, res)).Some? ==>
      if j.RefreshLookup? then res.Refresh? && Found(Resume(j, res)) == Some((j.r, res.refreshId, res.refresh))
      else Found(Resume(j, res)) == Found(j)
  }

  lemma PollLookupKeepsClaims(j: Job, res: Result)
    requires j.PollLookup?
    ensures ReservesNoMore(j, res) && FoundByLookup(j, res) && !Resume(j, res).OuterBegin?
  {
    var j1 := AfterPollLookup(j.q, res);
    assert j1.Finished? || j1.PollMark? || j1.PollSlow? || (j1.PairDevice? && j1.q == j.q);
  }

  lemma PairingKeepsClaims(j: Job, res: Result)
    requires IsPolling(j) && !j.PollLookup?
    ensures ReservesNoMore(j, res) && FoundByLookup(j, res) && !Resume(j, res).OuterBegin?
  {
  }

  lemma OthersClaimNothing(j: Job, res: Result)
    requires !IsPolling(j) && !IsRefreshing(j)
    ensures Reserved(Resume(j, res)).None? && Found(Resume(j, res)).None? && !Resume(j, res).OuterBegin?
  {
  }

  /** A job's own progress: what it still reserves and what it has found. */
  lemma ResumeKeepsClaims(j: Job, res: Result)
    requires CallOf(j).Some? && !j.OuterBegin?
    ensures ReservesNoMore(j, res) && FoundByLookup(j, res) && !Resume(j, res).OuterBegin?
  {
    if j.PollLookup? {
      PollLookupKeepsClaims(j, res);
    } else if IsPolling(j) {
      PairingKeepsClaims(j, res);
    } else if !IsRefreshing(j) {
      OthersClaimNothing(j, res);
    }
  }

  /** Births stay orderly, stored rows stay in their places, and a new row has the reserved key. */
  ghost predicate TablesKept(s: System, s1: System, j: Job) {
    && BornOk(s1.born, s1.next) && RowsOk(s1.t.refresh, s1.born) && RowsKept(s.t.refresh, s1.t.refresh)
    && (forall i :: i in s1.t.refresh && i !in s.t.refresh ==> Reserved(j).Some? && i == Reserved(j).value.1)
  }

  lemma RotationKeepsTables(s: System, k: nat, ok: bool)
    requires ForestInv(s) && k < |s.jobs| && s.jobs[k].RefreshRotate?
    ensures TablesKept(s, CallStep(s, k, ok), s.jobs[k])
  {
    var j := s.jobs[k];
    assert ReservedOk(j, s.born) && FoundOk(j, s.t.refresh, s.born);
    RotateCall(s.t, s.born, j, ok);
    if ok && j.id in s.t.refresh {
      var (h, newId) := Reserved(j).value;
      RotatedRowsOk(s.t.refresh, s.born, s.next, j.id, newId, h, Unix(j.r.clock.rotate),
                    Unix(j.r.clock.issue + j.r.cfg.refreshTTL));
    }
  }

  lemma PairingKeepsTables(s: System, k: nat, ok: bool)
    requires ForestInv(s) && k < |s.jobs| && s.jobs[k].PairRefresh?
    ensures TablesKept(s, CallStep(s, k, ok), s.jobs[k])
  {
    var j := s.jobs[k];
    assert ReservedOk(j, s.born);
    PairCall(s.t, s.born, j, ok);
    if ok {
      var (h, newId) := Reserved(j).value;
      PairedRowsOk(s.t.refresh, s.born, s.next, newId,
                   RefreshRow(j.q.mint.deviceId, h, None, Unix(j.q.clock.issue),
                              Unix(j.q.clock.issue + j.q.cfg.refreshTTL), None, None));
    }
  }

  /** The table part of every call. */
  lemma TablesKeepForest(s: System, k: nat, ok: bool)
    requires ForestInv(s) && k < |s.jobs| && CallOf(s.jobs[k]).Some?
    ensures TablesKept(s, CallStep(s, k, ok), s.jobs[k])
  {
    if s.jobs[k].RefreshRotate? {
      RotationKeepsTables(s, k, ok);
    } else if s.jobs[k].PairRefresh? {
      PairingKeepsTables(s, k, ok);
    } else {
      PlainCall(s.t, s.jobs[k], ok);
      PlainRowsOk(s.t.refresh, CallStep(s, k, ok).t.refresh, s.born);
    }
  }

  /** A job that did not move keeps its claims: nobody else was born under its reserved names. */
  lemma OthersKeepClaims(j: Job, rows: map<Id, RefreshRow>, born: map<Digest, Birth>, rows1: map<Id, RefreshRow>,
                         born1: map<Digest, Birth>,
                         add: Option<(Digest, Id)>, rank: nat)
    requires ReservedOk(j, born) && FoundOk(j, rows, born) && RowsKept(rows, rows1)
    requires born1 == if add.Some? then born[add.value.0 := Birth(add.value.1, rank)] else born
    requires add.Some? ==> add.value.0 !in born && forall h :: h in born ==> born[h].id != add.value.1
    requires add.Some? && Reserved(j).Some? ==> add.value.0 != Reserved(j).value.0 && add.value.1 != Reserved(j).value.1
    requires forall i :: i in rows1 && i !in rows ==> add.Some? && i == add.value.1
    ensures ReservedOk(j, born1) && FoundOk(j, rows1, born1)
  {
  }

  /** The job that moved claims no more than before; what a refresh lookup found is a stored row. */
  lemma MoverKeepsClaims(t: Tables, j: Job, born: map<Digest, Birth>, ok: bool, rows1: map<Id, RefreshRow>)
    requires CallOf(j).Some? && !j.OuterBegin? && ReservedOk(j, born) && FoundOk(j, t.refresh, born)
    requires RowsOk(t.refresh, born)
    requires var (t1, res) := Effect(t, CallOf(j).value, ok); rows1 == t1.refresh && !(Inserts(j) && res.Done?)
    requires RowsKept(t.refresh, rows1) && forall i :: i in rows1 ==> i in t.refresh
    ensures var j1 := Resume(j, Effect(t, CallOf(j).value, ok).1); ReservedOk(j1, born) && FoundOk(j1, rows1, born)
  {
    var res := Effect(t, CallOf(j).value, ok).1;
    ResumeKeepsClaims(j, res);
    if j.RefreshLookup? && res.Refresh? {
      assert rows1 == t.refresh;
    }
  }

  lemma InserterIsThrough(j: Job)
    requires Inserts(j)
    ensures Reserved(Resume(j, Done)).None? && Found(Resume(j, Done)).None? && !Resume(j, Done).OuterBegin?
  {
  }

  lemma OtherJobKeepsClaims(s: System, s1: System, k: nat, l: nat, add: Option<(Digest, Id)>)
    requires ForestInv(s) && k < |s.jobs| && l < |s.jobs| == |s1.jobs| && l != k && s1.jobs[l] == s.jobs[l]
    requires add.Some? ==> add == Reserved(s.jobs[k])
    requires s1.born == if add.Some? then s.born[add.value.0 := Birth(add.value.1, s.next)] else s.born
    requires RowsKept(s.t.refresh, s1.t.refresh)
    requires forall i :: i in s1.t.refresh && i !in s.t.refresh ==> add.Some? && i == add.value.1
    ensures ReservedOk(s1.jobs[l], s1.born) && FoundOk(s1.jobs[l], s1.t.refresh, s1.born) && !s1.jobs[l].OuterBegin?
  {
    assert ReservedOk(s.jobs[l], s.born) && FoundOk(s.jobs[l], s.t.refresh, s.born) && ReservedOk(s.jobs[k], s.born);
    OthersKeepClaims(s.jobs[l], s.t.refresh, s.born, s1.t.refresh, s1.born, add, s.next);
  }

  lemma MovedJobKeepsClaims(s: System, k: nat, ok: bool)
    requires ForestInv(s) && k < |s.jobs| && CallOf(s.jobs[k]).Some?
    ensures var s1 := CallStep(s, k, ok);
            ReservedOk(s1.jobs[k], s1.born) && FoundOk(s1.jobs[k], s1.t.refresh, s1.born) && !s1.jobs[k].OuterBegin?
  {
    var j := s.jobs[k];
    assert ReservedOk(j, s.born) && FoundOk(j, s.t.refresh, s.born) && !j.OuterBegin?;
    var res := Effect(s.t, CallOf(j).value, ok).1;
    ResumeKeepsClaims(j, res);
    if Inserts(j) && res.Done? {
      InserterIsThrough(j);
    } else {
      NoNewRows(s, k, ok);
      TablesKeepForest(s, k, ok);
      MoverKeepsClaims(s.t, j, s.born, ok, CallStep(s, k, ok).t.refresh);
    }
  }

  lemma NoNewRows(s: System, k: nat, ok: bool)
    requires ForestInv(s) && k < |s.jobs| && CallOf(s.jobs[k]).Some?
    requires !(Inserts(s.jobs[k]) && Effect(s.t, CallOf(s.jobs[k]).value, ok).1.Done?)
    ensures forall i :: i in CallStep(s, k, ok).t.refresh ==> i in s.t.refresh
  {
    if !Inserts(s.jobs[k]) { PlainCall(s.t, s.jobs[k], ok); }
  }

  lemma ReservationsStayApart(s: System, k: nat, ok: bool)
    requires ForestInv(s) && k < |s.jobs| && CallOf(s.jobs[k]).Some?
    ensures Disjoint(CallStep(s, k, ok).jobs)
  {
    ResumeKeepsClaims(s.jobs[k], Effect(s.t, CallOf(s.jobs[k]).value, ok).1);
  }

  /** What a call step amounts to, with the row it inserted under a reserved name, if any. */
  lemma StepSummary(s: System, k: nat, ok: bool) returns (add: Option<(Digest, Id)>)
    requires ForestInv(s) && k < |s.jobs| && CallOf(s.jobs[k]).Some?
    ensures add.Some? ==> add == Reserved(s.jobs[k])
    ensures CallStep(s, k, ok).born == if add.Some? then s.born[add.value.0 := Birth(add.value.1, s.next)] else s.born
    ensures forall i :: i in CallStep(s, k, ok).t.refresh && i !in s.t.refresh ==> add.Some? && i == add.value.1
  {
    if Inserts(s.jobs[k]) && Effect(s.t, CallOf(s.jobs[k]).value, ok).1.Done? {
      add := Reserved(s.jobs[k]);
      TablesKeepForest(s, k, ok);
    } else {
      add := None;
      NoNewRows(s, k, ok);
    }
  }

  lemma ClaimsCompose(s: System, s1: System, k: nat, add: Option<(Digest, Id)>)
    requires ForestInv(s) && k < |s.jobs| == |s1.jobs|
    requires forall l :: 0 <= l < |s.jobs| && l != k ==> s1.jobs[l] == s.jobs[l]
    requires add.Some? ==> add == Reserved(s.jobs[k])
    requires s1.born == if add.Some? then s.born[add.value.0 := Birth(add.value.1, s.next)] else s.born
    requires RowsKept(s.t.refresh, s1.t.refresh)
    requires forall i :: i in s1.t.refresh && i !in s.t.refresh ==> add.Some? && i == add.value.1
    requires ReservedOk(s1.jobs[k], s1.born) && FoundOk(s1.jobs[k], s1.t.refresh, s1.born) && !s1.jobs[k].OuterBegin?
    ensures forall l :: 0 <= l < |s.jobs| ==>
              ReservedOk(s1.jobs[l], s1.born) && FoundOk(s1.jobs[l], s1.t.refresh, s1.born)
    ensures forall l :: 0 <= l < |s.jobs| ==> !s1.jobs[l].OuterBegin?
  {
    forall l | 0 <= l < |s.jobs|
      ensures ReservedOk(s1.jobs[l], s1.born) && FoundOk(s1.jobs[l], s1.t.refresh, s1.born) && !s1.jobs[l].OuterBegin?
    {
      if l != k { OtherJobKeepsClaims(s, s1, k, l, add); }
    }
  }

  /**
   * Every call of every job keeps the forest: each stored parent is on the same device and
   * rotated, parents are older than their children, and no mark on a stored row ever clears.
   */
  lemma CallKeepsForest(s: System, k: nat, ok: bool)
    requires ForestInv(s) && k < |s.jobs| && CallOf(s.jobs[k]).Some?
    ensures ForestInv(CallStep(s, k, ok))
    ensures RowsKept(s.t.refresh, CallStep(s, k, ok).t.refresh)
  {
    var add := StepSummary(s, k, ok);
    TablesKeepForest(s, k, ok);
    ReservationsStayApart(s, k, ok);
    MovedJobKeepsClaims(s, k, ok);
    ClaimsCompose(s, CallStep(s, k, ok), k, add);
  }
}
