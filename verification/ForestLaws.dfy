/** Laws of the refresh forest over whole interleavings, and the one that fails there. */
module ForestLaws {
  import opened Base
  import opened Tables
  import opened Broker
  import opened Invariants
  import opened Jobs
  import opened Forest

  /** Whose call comes next, and whether it succeeds. */
  datatype Turn = Turn(job: nat, ok: bool)

  ghost predicate CallAt(ss: seq<System>, turns: seq<Turn>, n: nat)
    requires n < |turns| && |ss| == |turns| + 1
  {
    && turns[n].job < |ss[n].jobs| && CallOf(ss[n].jobs[turns[n].job]).Some?
    && ss[n + 1] == CallStep(ss[n], turns[n].job, turns[n].ok)
  }

  /** An interleaving: calls of any jobs in any order, and the systems between them. */
  ghost predicate IsInterleaving(ss: seq<System>, turns: seq<Turn>) {
    |ss| == |turns| + 1 && forall n :: 0 <= n < |turns| ==> CallAt(ss, turns, n)
  }

  ghost predicate CanCall(s: System, k: nat) {
    k < |s.jobs| && CallOf(s.jobs[k]).Some?
  }

  lemma {:induction false} Kept(ss: seq<System>, turns: seq<Turn>, i: nat, j: nat, p: System -> bool)
    requires IsInterleaving(ss, turns) && i <= j < |ss| && p(ss[i])
    requires forall s, k, ok :: p(s) && CanCall(s, k) ==> p(CallStep(s, k, ok))
    ensures p(ss[j])
    decreases j
  {
    if i < j {
      Kept(ss, turns, i, j - 1, p);
      assert CallAt(ss, turns, j - 1);
      assert CanCall(ss[j - 1], turns[j - 1].job);
    }
  }

  lemma ForestForever(ss: seq<System>, turns: seq<Turn>, i: nat, j: nat)
    requires IsInterleaving(ss, turns) && i <= j < |ss| && ForestInv(ss[i])
    ensures ForestInv(ss[j])
  {
    forall s, k, ok | ForestInv(s) && CanCall(s, k)
      ensures ForestInv(CallStep(s, k, ok))
    {
      CallKeepsForest(s, k, ok);
    }
    Kept(ss, turns, i, j, s => ForestInv(s));
  }

  /** Any jobs at their first call, with different random strings, on empty tables. */
  lemma FreshJobsFormAForest(jobs: seq<Job>)
    requires Disjoint(jobs) && forall k :: 0 <= k < |jobs| ==> Found(jobs[k]).None? && !jobs[k].OuterBegin?
    ensures ForestInv(System(EMPTY, jobs, map[], 0))
  {
  }

  // ----- parents

  /** The first digest was inserted before the second. */
  predicate Older(born: map<Digest, Birth>, h: Digest, g: Digest) {
    h in born && g in born && born[h].rank < born[g].rank
  }

  /** In every reachable system a stored parent is on its child's device and rotated. */
  lemma StoredParentsAreSpent(ss: seq<System>, turns: seq<Turn>, n: nat, child: Id, parent: Id)
    requires IsInterleaving(ss, turns) && ForestInv(ss[0]) && n < |ss|
    requires child in ss[n].t.refresh && parent in ss[n].t.refresh
    requires ss[n].t.refresh[child].parent == Some(ss[n].t.refresh[parent].hash)
    ensures ss[n].t.refresh[parent].device == ss[n].t.refresh[child].device
    ensures ss[n].t.refresh[parent].rotatedAt.Some?
    ensures Older(ss[n].born, ss[n].t.refresh[parent].hash, ss[n].t.refresh[child].hash)
  {
    ForestForever(ss, turns, 0, n);
  }

  /** A path of parent links through stored rows, child first. */
  ghost predicate ParentPath(rows: map<Id, RefreshRow>, path: seq<Id>) {
    && (forall k :: 0 <= k < |path| ==> path[k] in rows)
    && (forall k :: 0 <= k < |path| - 1 ==> rows[path[k]].parent == Some(rows[path[k + 1]].hash))
  }

  lemma ParentIsOlder(rows: map<Id, RefreshRow>, born: map<Digest, Birth>, child: Id, parent: Id)
    requires RowsOk(rows, born) && child in rows && parent in rows && rows[child].parent == Some(rows[parent].hash)
    ensures Older(born, rows[parent].hash, rows[child].hash)
  {
  }

  lemma {:induction false} PathsDescend(rows: map<Id, RefreshRow>, born: map<Digest, Birth>, path: seq<Id>, k: nat)
    requires RowsOk(rows, born) && ParentPath(rows, path) && 0 < k < |path|
    ensures Older(born, rows[path[k]].hash, rows[path[0]].hash)
  {
    assert path[k - 1] in rows && path[k] in rows && rows[path[k - 1]].parent == Some(rows[path[k]].hash);
    ParentIsOlder(rows, born, path[k - 1], path[k]);
    if k > 1 { PathsDescend(rows, born, path, k - 1); }
  }

  /** Parent links never lead back to where they started. */
  lemma ParentsAreAcyclic(ss: seq<System>, turns: seq<Turn>, n: nat, path: seq<Id>)
    requires IsInterleaving(ss, turns) && ForestInv(ss[0]) && n < |ss|
    requires ParentPath(ss[n].t.refresh, path) && |path| >= 2
    ensures path[0] != path[|path| - 1]
  {
    ForestForever(ss, turns, 0, n);
    PathsDescend(ss[n].t.refresh, ss[n].born, path, |path| - 1);
  }

  // ----- marks

  /** The row born here under this digest is this one, up to marks, as long as it is stored. */
  ghost predicate Remembers(s: System, id: Id, row: RefreshRow) {
    && row.hash in s.born && s.born[row.hash].id == id
    && (id in s.t.refresh ==> SameUpToMarks(row, s.t.refresh[id]))
  }

  lemma CallRemembers(s: System, k: nat, ok: bool, id: Id, row: RefreshRow)
    requires ForestInv(s) && CanCall(s, k) && Remembers(s, id, row)
    ensures Remembers(CallStep(s, k, ok), id, row)
  {
    var add := StepSummary(s, k, ok);
    assert ReservedOk(s.jobs[k], s.born);
    CallKeepsForest(s, k, ok);
  }

  /**
   * A row stored at two moments of an interleaving is the same row with at least the same
   * marks: device, digest, parent and times are fixed, rotated and revoked never clear.
   */
  lemma MarksNeverClear(ss: seq<System>, turns: seq<Turn>, i: nat, j: nat, id: Id)
    requires IsInterleaving(ss, turns) && ForestInv(ss[0]) && i <= j < |ss|
    requires id in ss[i].t.refresh && id in ss[j].t.refresh
    ensures SameUpToMarks(ss[i].t.refresh[id], ss[j].t.refresh[id])
  {
    var row := ss[i].t.refresh[id];
    ForestForever(ss, turns, 0, i);
    var p := (s: System) => ForestInv(s) && Remembers(s, id, row);
    forall s, k, ok | p(s) && CanCall(s, k)
      ensures p(CallStep(s, k, ok))
    {
      CallKeepsForest(s, k, ok);
      CallRemembers(s, k, ok, id, row);
    }
    Kept(ss, turns, i, j, p);
  }

  // ----- a lookup after a rotation

  /** The token with this digest was inserted, and every stored row that carries it is rotated. */
  ghost predicate SpentHash(s: System, h: Digest) {
    h in s.born && forall i :: i in s.t.refresh && s.t.refresh[i].hash == h ==> s.t.refresh[i].rotatedAt.Some?
  }

  lemma CallKeepsSpent(s: System, k: nat, ok: bool, h: Digest)
    requires ForestInv(s) && CanCall(s, k) && SpentHash(s, h)
    ensures SpentHash(CallStep(s, k, ok), h)
  {
    var add := StepSummary(s, k, ok);
    CallKeepsForest(s, k, ok);
    assert ReservedOk(s.jobs[k], s.born);
    var s1 := CallStep(s, k, ok);
    forall i | i in s1.t.refresh && s1.t.refresh[i].hash == h
      ensures s1.t.refresh[i].rotatedAt.Some?
    {
      assert s1.born[s1.t.refresh[i].hash].id == i;
    }
  }

  lemma RotationSpends(s: System, k: nat, ok: bool)
    requires ForestInv(s) && CanCall(s, k) && s.jobs[k].RefreshRotate? && CallStep(s, k, ok).jobs[k].AuditThen?
    ensures SpentHash(CallStep(s, k, ok), s.jobs[k].row.hash)
    ensures HashSecret(s.jobs[k].r.cfg, s.jobs[k].r.token) == s.jobs[k].row.hash
  {
    assert ReservedOk(s.jobs[k], s.born) && FoundOk(s.jobs[k], s.t.refresh, s.born);
    RotateCall(s.t, s.born, s.jobs[k], ok);
  }

  /**
   * Once a rotation of a token has committed, every refresh that looks the token up
   * afterwards is turned away, whatever the two requests' other calls are doing.
   */
  lemma LookupAfterRotationFails(ss: seq<System>, turns: seq<Turn>, i: nat, j: nat)
    requires IsInterleaving(ss, turns) && ForestInv(ss[0]) && i < j < |turns| && CallAt(ss, turns, i)
    requires CallAt(ss, turns, j)
    requires ss[i].jobs[turns[i].job].RefreshRotate? && ss[i + 1].jobs[turns[i].job].AuditThen?
    requires ss[j].jobs[turns[j].job].RefreshLookup?
    requires var r := ss[j].jobs[turns[j].job].r; HashSecret(r.cfg, r.token) == ss[i].jobs[turns[i].job].row.hash
    ensures || ss[j + 1].jobs[turns[j].job] == Finished(Unauthorized)
            || ss[j + 1].jobs[turns[j].job] == Finished(ServerError)
  {
    var h := ss[i].jobs[turns[i].job].row.hash;
    SpentAfterRotation(ss, turns, i);
    var p := (s: System) => ForestInv(s) && SpentHash(s, h);
    forall s, k, ok | p(s) && CanCall(s, k)
      ensures p(CallStep(s, k, ok))
    {
      CallKeepsForest(s, k, ok);
      CallKeepsSpent(s, k, ok, h);
    }
    Kept(ss, turns, i + 1, j, p);
    assert CallAt(ss, turns, j);
    SpentLookupFails(ss[j], turns[j].job, turns[j].ok, h);
  }

  lemma SpentAfterRotation(ss: seq<System>, turns: seq<Turn>, i: nat)
    requires IsInterleaving(ss, turns) && ForestInv(ss[0]) && i < |turns|
    requires CallAt(ss, turns, i) && ss[i].jobs[turns[i].job].RefreshRotate? && ss[i + 1].jobs[turns[i].job].AuditThen?
    ensures ForestInv(ss[i + 1]) && SpentHash(ss[i + 1], ss[i].jobs[turns[i].job].row.hash)
  {
    ForestForever(ss, turns, 0, i);
    CallKeepsForest(ss[i], turns[i].job, turns[i].ok);
    RotationSpends(ss[i], turns[i].job, turns[i].ok);
  }

  lemma SpentLookupFails(s: System, k: nat, ok: bool, h: Digest)
    requires CanCall(s, k) && s.jobs[k].RefreshLookup? && SpentHash(s, h)
    requires HashSecret(s.jobs[k].r.cfg, s.jobs[k].r.token) == h
    ensures CallStep(s, k, ok).jobs[k] == Finished(Unauthorized) || CallStep(s, k, ok).jobs[k] == Finished(ServerError)
  {
  }

  /** Rotating a row that cleanup took meanwhile changes no table and answers with an error. */
  lemma RotatingAGoneRowChangesNothing(s: System, k: nat, ok: bool)
    requires ForestInv(s) && CanCall(s, k) && s.jobs[k].RefreshRotate? && s.jobs[k].id !in s.t.refresh
    ensures CallStep(s, k, ok).t == s.t && CallStep(s, k, ok).jobs[k] == Finished(ServerError)
  {
    assert ReservedOk(s.jobs[k], s.born) && FoundOk(s.jobs[k], s.t.refresh, s.born);
    RotateCall(s.t, s.born, s.jobs[k], ok);
  }

  // ----- what does not hold at this grain

  /**
   * Single use needs the serial grain. Two refresh requests that both looked the token up
   * before either rotated it both succeed: the UPDATE asks for the id alone, not for an
   * empty rotated mark. Afterwards the device has two rows left to rotate.
   */
  lemma TwoLookupsTwoRotations(s: System, k: nat, l: nat)
    requires ForestInv(s) && k < |s.jobs| && l < |s.jobs| && k != l
    requires s.jobs[k].RefreshRotate? && s.jobs[l].RefreshRotate? && s.jobs[k].id == s.jobs[l].id
    requires s.jobs[k].id in s.t.refresh
    ensures var s1 := CallStep(s, k, true); var s2 := CallStep(s1, l, true);
            && s1.jobs[k].AuditThen? && s1.jobs[k].reply.RefreshedWith?
            && s2.jobs[l].AuditThen? && s2.jobs[l].reply.RefreshedWith?
            && !OneLive(s2.t.refresh)
  {
    var a, b := s.jobs[k], s.jobs[l];
    var s1 := CallStep(s, k, true);
    assert ReservedOk(a, s.born) && FoundOk(a, s.t.refresh, s.born);
    RotateCall(s.t, s.born, a, true);
    CallKeepsForest(s, k, true);
    assert s1.jobs[l] == b;
    assert ReservedOk(b, s1.born) && FoundOk(b, s1.t.refresh, s1.born);
    RotateCall(s1.t, s1.born, b, true);
    var x, y := Reserved(a).value.1, Reserved(b).value.1;
    var s2 := CallStep(s1, l, true);
    assert Live(s2.t.refresh, x) && Live(s2.t.refresh, y) && x != y;
  }
}
