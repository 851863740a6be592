/** The rotation history of a device and what cleanup leaves of it, serial grain. */
module ChainLaws {
  import opened Base
  import opened Tables
  import opened Broker
  import opened Invariants
  import opened SessionLaws

  /** A refresh row as it was inserted. */
  datatype Issue = Issue(id: Id, row: RefreshRow)

  /** The refresh rows a step from `w` to `w1` inserts for a device: at most one. */
  ghost function IssuedTo(w: World, s: Step, w1: World, device: Id): seq<Issue> {
    if (s.PollStep? || s.RefreshStep?) && s.mint.refreshId !in w.t.refresh && s.mint.refreshId in w1.t.refresh
       && w1.t.refresh[s.mint.refreshId].device == device
    then [Issue(s.mint.refreshId, w1.t.refresh[s.mint.refreshId])]
    else []
  }

  /** Every refresh row inserted for the device in the first `n` steps, oldest first. */
  ghost function History(ws: seq<World>, steps: seq<Step>, n: nat, device: Id): seq<Issue>
    requires n <= |steps| && |ws| == |steps| + 1
  {
    if n == 0 then [] else History(ws, steps, n - 1, device) + IssuedTo(ws[n - 1], steps[n - 1], ws[n], device)
  }

  /** Each row names the one before it as its parent, and the first names none. */
  ghost predicate Linked(c: seq<Issue>) {
    && (c != [] ==> c[0].row.parent.None?)
    && forall k, l :: 0 <= k < |c| && l == k + 1 < |c| ==> c[l].row.parent == Some(c[k].row.hash)
  }

  ghost predicate ExpirySorted(c: seq<Issue>) {
    forall k, l :: 0 <= k <= l < |c| ==> c[k].row.expiresAt <= c[l].row.expiresAt
  }

  ghost predicate DistinctIds(c: seq<Issue>) {
    forall k, l :: 0 <= k < |c| && 0 <= l < |c| && c[k].id == c[l].id ==> k == l
  }

  /** The history of a device against the tables, whatever was cleaned up. */
  ghost predicate HistoryInv(w: World, c: seq<Issue>, device: Id) {
    && Linked(c) && DistinctIds(c) && (c != [] ==> device in w.ids)
    && (forall k :: 0 <= k < |c| ==> c[k].row.device == device && c[k].id in w.ids)
    && (forall k :: 0 <= k < |c| && c[k].id in w.t.refresh ==> SameUpToMarks(c[k].row, w.t.refresh[c[k].id]))
    && Complete(w, c, device)
  }

  /** Nothing else is stored for the device, and only its newest row can be rotated. */
  ghost predicate Complete(w: World, c: seq<Issue>, device: Id) {
    && (forall i :: i in w.t.refresh && w.t.refresh[i].device == device ==> exists k :: 0 <= k < |c| && c[k].id == i)
    && (forall k :: 0 <= k < |c| - 1 ==> !Live(w.t.refresh, c[k].id))
  }

  /** Exactly the rows from position `cut` on are still stored. */
  ghost predicate StoredFrom(w: World, c: seq<Issue>, cut: nat) {
    cut <= |c| && forall k :: 0 <= k < |c| ==> (c[k].id in w.t.refresh <==> cut <= k)
  }

  // ----- one step

  /** Steps that insert no row for the device. */
  lemma QuietStepKeepsHistory(w: World, s: Step, c: seq<Issue>, device: Id)
    requires Inv(w) && Enabled(w, s) && HistoryInv(w, c, device) && IssuedTo(w, s, Next(w, s), device) == []
    ensures HistoryInv(Next(w, s), c, device)
  {
    var w1 := Next(w, s);
    forall i | i in w1.t.refresh
      ensures (i in w.t.refresh && SameUpToMarks(w.t.refresh[i], w1.t.refresh[i]))
              || (i !in w.ids && w1.t.refresh[i].device != device)
    {
      RefreshRowsEvolve(w, s, i);
      if i !in w.t.refresh { OnlyMintedRowsAppear(w, s, i); }
    }
  }

  lemma OnlyMintedRowsAppear(w: World, s: Step, i: Id)
    requires Inv(w) && Enabled(w, s) && i in Next(w, s).t.refresh && i !in w.t.refresh
    ensures (s.PollStep? || s.RefreshStep?) && i == s.mint.refreshId
  {
    match s
    case PollStep(_, _, _, _, _) => PollShape(w, s);
    case RefreshStep(_, _, _, _) =>
      if Refreshable(w, s) { RefreshShape(w, s); } else { RefusedRefresh(w, s); }
    case RevokeStep(_, _, _) => RevokeShape(w, s);
    case ProxyStep(_, _, _) => ProxyShape(w, s);
    case _ =>
  }

  /** Only cleanup deletes refresh rows. */
  lemma RowsSurvive(w: World, s: Step)
    requires Inv(w) && Enabled(w, s) && !s.CleanupStep?
    ensures forall i :: i in w.t.refresh ==> i in Next(w, s).t.refresh
  {
    match s
    case PollStep(_, _, _, _, _) => PollShape(w, s);
    case RefreshStep(_, _, _, _) =>
      if Refreshable(w, s) { RefreshShape(w, s); } else { RefusedRefresh(w, s); }
    case RevokeStep(_, _, _) => RevokeShape(w, s);
    case ProxyStep(_, _, _) => ProxyShape(w, s);
    case _ =>
  }

  lemma LinkedExtends(c: seq<Issue>, issue: Issue)
    requires Linked(c) && issue.row.parent == if c == [] then None else Some(c[|c| - 1].row.hash)
    ensures Linked(c + [issue])
  {
  }

  lemma SortedExtends(c: seq<Issue>, issue: Issue)
    requires ExpirySorted(c) && (c != [] ==> c[|c| - 1].row.expiresAt <= issue.row.expiresAt)
    ensures ExpirySorted(c + [issue])
  {
  }

  lemma DistinctExtends(c: seq<Issue>, issue: Issue)
    requires DistinctIds(c) && forall k :: 0 <= k < |c| ==> c[k].id != issue.id
    ensures DistinctIds(c + [issue])
  {
  }

  /** One more row at the end, the last one no longer live: still a history. */
  lemma ExtendedHistory(w: World, w1: World, c: seq<Issue>, issue: Issue, device: Id)
    requires HistoryInv(w, c, device) && w.ids <= w1.ids
    requires issue.row.device == device && issue.row.parent == if c == [] then None else Some(c[|c| - 1].row.hash)
    requires c != [] ==> !Live(w1.t.refresh, c[|c| - 1].id)
    requires issue.id !in w.ids && issue.id in w1.ids && device in w1.ids
    requires issue.id in w1.t.refresh && w1.t.refresh[issue.id] == issue.row
    requires forall i :: i in w1.t.refresh && i != issue.id ==>
               i in w.t.refresh && SameUpToMarks(w.t.refresh[i], w1.t.refresh[i])
    ensures HistoryInv(w1, c + [issue], device)
  {
    var c1 := c + [issue];
    assert forall k :: 0 <= k < |c| ==> c1[k] == c[k];
    assert c1[|c|] == issue;
    LinkedExtends(c, issue);
    DistinctExtends(c, issue);
    forall i | i in w1.t.refresh && w1.t.refresh[i].device == device
      ensures exists k :: 0 <= k < |c1| && c1[k].id == i
    {
      if i != issue.id {
        var k :| 0 <= k < |c| && c[k].id == i;
        assert c1[k].id == i;
      }
    }
    forall k | 0 <= k < |c1| - 1
      ensures !Live(w1.t.refresh, c1[k].id)
    {
      if k < |c| - 1 { assert !Live(w.t.refresh, c[k].id); }
    }
  }

  /** The refresh is accepted and makes both its writes. */
  ghost predicate Rotates(w: World, s: Step) {
    s.RefreshStep? && Refreshable(w, s) && AddsAccess(s.faults) && Rotation !in s.faults
  }

  /** The row that an accepted refresh rotates. */
  ghost function UsedRow(w: World, s: Step): RefreshRow
    requires Rotates(w, s)
  {
    w.t.refresh[FindRefresh(w.t.refresh, HashSecret(w.cfg, s.token)).value]
  }

  /** A rotation for the device that gives the new row an earlier expiry than the row it replaces. */
  ghost predicate OutOfOrder(w: World, s: Step, device: Id) {
    && Rotates(w, s) && UsedRow(w, s).device == device
    && UsedRow(w, s).expiresAt > Unix(s.refreshClock.issue + w.cfg.refreshTTL)
  }

  /** The row an issuing step inserts, and what it does to the row before it. */
  lemma IssuedRow(w: World, s: Step, c: seq<Issue>, device: Id)
    requires Inv(w) && Enabled(w, s) && HistoryInv(w, c, device) && IssuedTo(w, s, Next(w, s), device) != []
    ensures var row := IssuedTo(w, s, Next(w, s), device)[0].row;
            row.parent == (if c == [] then None else Some(c[|c| - 1].row.hash)) && row.device == device
    ensures c != [] ==>
              && Rotates(w, s) && SameUpToMarks(c[|c| - 1].row, UsedRow(w, s)) && UsedRow(w, s).device == device
              && IssuedTo(w, s, Next(w, s), device)[0].row.expiresAt == Unix(s.refreshClock.issue + w.cfg.refreshTTL)
              && !Live(Next(w, s).t.refresh, c[|c| - 1].id)
    ensures device in Next(w, s).ids
  {
    if s.PollStep? {
      PollShape(w, s);
    } else {
      if !Refreshable(w, s) { RefusedRefresh(w, s); }
      RefreshShape(w, s);
      var used := FindRefresh(w.t.refresh, HashSecret(w.cfg, s.token)).value;
      var k :| 0 <= k < |c| && c[k].id == used;
      assert Live(w.t.refresh, used);
      assert k == |c| - 1;
    }
  }

  /** A pairing opens an empty history; a rotation extends the history at its newest row. */
  lemma IssueExtendsHistory(w: World, s: Step, c: seq<Issue>, device: Id)
    requires Inv(w) && Enabled(w, s) && HistoryInv(w, c, device) && IssuedTo(w, s, Next(w, s), device) != []
    ensures HistoryInv(Next(w, s), c + IssuedTo(w, s, Next(w, s), device), device)
  {
    var w1, issue := Next(w, s), IssuedTo(w, s, Next(w, s), device)[0];
    IssuedRow(w, s, c, device);
    forall i | i in w1.t.refresh && i != issue.id
      ensures i in w.t.refresh && SameUpToMarks(w.t.refresh[i], w1.t.refresh[i])
    {
      RefreshRowsEvolve(w, s, i);
      if i !in w.t.refresh { OnlyMintedRowsAppear(w, s, i); }
    }
    assert IssuedTo(w, s, Next(w, s), device) == [issue];
    ExtendedHistory(w, w1, c, issue, device);
  }

  /** A step keeps the history sorted by expiry if and only if it is no rotation out of order. */
  lemma WhenOrderIsKept(w: World, s: Step, c: seq<Issue>, device: Id)
    requires Inv(w) && Enabled(w, s) && HistoryInv(w, c, device) && ExpirySorted(c)
    ensures ExpirySorted(c + IssuedTo(w, s, Next(w, s), device)) <==> !OutOfOrder(w, s, device)
  {
    var issued := IssuedTo(w, s, Next(w, s), device);
    if issued == [] {
      assert c + issued == c;
      if Rotates(w, s) && UsedRow(w, s).device == device { RefreshShape(w, s); }
    } else {
      IssuedRow(w, s, c, device);
      assert issued == [issued[0]];
      var c1 := c + issued;
      if c != [] {
        assert c1[|c| - 1] == c[|c| - 1] && c1[|c|] == issued[0];
        if c[|c| - 1].row.expiresAt <= issued[0].row.expiresAt { SortedExtends(c, issued[0]); }
      } else {
        SortedExtends(c, issued[0]);
        if s.RefreshStep? { NothingToRotate(w, s, c, device); }
      }
    }
  }

  /** Without a history a device has no row to rotate. */
  lemma NothingToRotate(w: World, s: Step, c: seq<Issue>, device: Id)
    requires HistoryInv(w, c, device) && c == []
    ensures !OutOfOrder(w, s, device)
  {
  }

  /** Where the cut moves to when cleanup runs at second `now`. */
  function CutAt(c: seq<Issue>, cut: nat, now: Seconds): (r: nat)
    requires cut <= |c|
    ensures cut <= r <= |c|
    decreases |c| - cut
  {
    if cut < |c| && c[cut].row.expiresAt < now then CutAt(c, cut + 1, now) else cut
  }

  lemma {:induction false} CutSeparates(c: seq<Issue>, cut: nat, now: Seconds)
    requires cut <= |c| && ExpirySorted(c)
    ensures forall k :: cut <= k < |c| ==> (CutAt(c, cut, now) <= k <==> c[k].row.expiresAt >= now)
    decreases |c| - cut
  {
    if cut < |c| && c[cut].row.expiresAt < now {
      CutSeparates(c, cut + 1, now);
    }
  }

  /** A cleanup takes a prefix of what is stored of a sorted history. */
  lemma CleanupMovesCut(w: World, s: Step, c: seq<Issue>, device: Id, cut: nat)
    requires Inv(w) && Enabled(w, s) && s.CleanupStep?
    requires HistoryInv(w, c, device) && ExpirySorted(c) && StoredFrom(w, c, cut)
    ensures StoredFrom(Next(w, s), c, if s.deletes >= 2 then CutAt(c, cut, Unix(s.now)) else cut)
  {
    var w1, now := Next(w, s), Unix(s.now);
    CutSeparates(c, cut, now);
    assert s.deletes >= 2 ==> w1.t.refresh == KeptRefresh(w.t.refresh, now);
    assert forall k :: 0 <= k < |c| && c[k].id in w.t.refresh ==> w.t.refresh[c[k].id].expiresAt == c[k].row.expiresAt;
  }

  /** Every other step leaves the cut where it is. */
  lemma OtherStepsKeepCut(w: World, s: Step, c: seq<Issue>, device: Id, cut: nat)
    requires Inv(w) && Enabled(w, s) && !s.CleanupStep? && HistoryInv(w, c, device) && StoredFrom(w, c, cut)
    ensures StoredFrom(Next(w, s), c + IssuedTo(w, s, Next(w, s), device), cut)
  {
    var w1, c1 := Next(w, s), c + IssuedTo(w, s, Next(w, s), device);
    RowsSurvive(w, s);
    forall k | 0 <= k < |c1|
      ensures c1[k].id in w1.t.refresh <==> cut <= k
    {
      if k < |c| {
        assert c1[k] == c[k];
        if c[k].id in w1.t.refresh && c[k].id !in w.t.refresh { OnlyMintedRowsAppear(w, s, c[k].id); }
      }
    }
  }

  // ----- whole runs

  lemma HistoryStep(w: World, s: Step, c: seq<Issue>, device: Id)
    requires Inv(w) && Enabled(w, s) && HistoryInv(w, c, device)
    ensures HistoryInv(Next(w, s), c + IssuedTo(w, s, Next(w, s), device), device)
  {
    if IssuedTo(w, s, Next(w, s), device) != [] {
      IssueExtendsHistory(w, s, c, device);
    } else {
      assert c + IssuedTo(w, s, Next(w, s), device) == c;
      QuietStepKeepsHistory(w, s, c, device);
    }
  }

  lemma HistoryGrows(ws: seq<World>, steps: seq<Step>, n: nat, c: seq<Issue>, device: Id)
    requires IsRun(ws, steps) && Inv(ws[0]) && n < |steps| && HistoryInv(ws[n], c, device)
    ensures HistoryInv(ws[n + 1], c + IssuedTo(ws[n], steps[n], ws[n + 1], device), device)
  {
    RunsKeepInv(ws, steps, n);
    assert StepAt(ws, steps, n);
    HistoryStep(ws[n], steps[n], c, device);
  }

  lemma OrderGrows(ws: seq<World>, steps: seq<Step>, n: nat, c: seq<Issue>, device: Id)
    requires IsRun(ws, steps) && Inv(ws[0]) && n < |steps| && HistoryInv(ws[n], c, device)
    ensures ExpirySorted(c + IssuedTo(ws[n], steps[n], ws[n + 1], device)) <==>
              ExpirySorted(c) && !OutOfOrder(ws[n], steps[n], device)
  {
    if ExpirySorted(c) {
      RunsKeepInv(ws, steps, n);
      assert StepAt(ws, steps, n);
      WhenOrderIsKept(ws[n], steps[n], c, device);
    } else if ExpirySorted(c + IssuedTo(ws[n], steps[n], ws[n + 1], device)) {
      PrefixSorted(c, IssuedTo(ws[n], steps[n], ws[n + 1], device));
    }
  }

  lemma NoHistoryYet(w: World, device: Id)
    requires Initial(w)
    ensures HistoryInv(w, [], device)
  {
  }

  /** What each step keeps of a history holds of the history of every run. */
  lemma {:induction false} AlongHistory(ws: seq<World>, steps: seq<Step>, n: nat, device: Id,
                                        p: (nat, seq<Issue>) -> bool)
    requires |ws| == |steps| + 1 && n <= |steps| && p(0, [])
    requires forall k: nat, c :: k < |steps| && p(k, c) ==> p(k + 1, c + IssuedTo(ws[k], steps[k], ws[k + 1], device))
    ensures p(n, History(ws, steps, n, device))
  {
    if n > 0 {
      AlongHistory(ws, steps, n - 1, device, p);
    }
  }

  /** In every run the history of a device is what its steps issued. */
  lemma HistoryHolds(ws: seq<World>, steps: seq<Step>, n: nat, device: Id)
    requires IsRun(ws, steps) && Initial(ws[0]) && n < |ws|
    ensures HistoryInv(ws[n], History(ws, steps, n, device), device)
  {
    var p := (k: nat, c: seq<Issue>) => k <= |steps| && HistoryInv(ws[k], c, device);
    NoHistoryYet(ws[0], device);
    forall k: nat, c | k < |steps| && p(k, c)
      ensures p(k + 1, c + IssuedTo(ws[k], steps[k], ws[k + 1], device))
    {
      HistoryGrows(ws, steps, k, c, device);
    }
    AlongHistory(ws, steps, n, device, p);
  }

  ghost predicate InOrder(ws: seq<World>, steps: seq<Step>, n: nat, device: Id)
    requires n <= |steps| && |ws| == |steps| + 1
  {
    forall k :: 0 <= k < n ==> !OutOfOrder(ws[k], steps[k], device)
  }

  lemma PrefixSorted(c: seq<Issue>, d: seq<Issue>)
    requires ExpirySorted(c + d)
    ensures ExpirySorted(c)
  {
    assert forall k :: 0 <= k < |c| ==> (c + d)[k] == c[k];
  }

  ghost predicate OrderAt(ws: seq<World>, steps: seq<Step>, n: nat, c: seq<Issue>, device: Id)
    requires n <= |steps| && |ws| == |steps| + 1
  {
    HistoryInv(ws[n], c, device) && (ExpirySorted(c) <==> InOrder(ws, steps, n, device))
  }

  lemma OrderStep(ws: seq<World>, steps: seq<Step>, n: nat, c: seq<Issue>, device: Id)
    requires IsRun(ws, steps) && Inv(ws[0]) && n < |steps| && OrderAt(ws, steps, n, c, device)
    ensures OrderAt(ws, steps, n + 1, c + IssuedTo(ws[n], steps[n], ws[n + 1], device), device)
  {
    HistoryGrows(ws, steps, n, c, device);
    OrderGrows(ws, steps, n, c, device);
  }

  /** The expiries along a history never decrease if and only if none of its rotations was out of order. */
  lemma SortedExactlyInOrder(ws: seq<World>, steps: seq<Step>, n: nat, device: Id)
    requires IsRun(ws, steps) && Initial(ws[0]) && n < |ws|
    ensures ExpirySorted(History(ws, steps, n, device)) <==> InOrder(ws, steps, n, device)
  {
    var p := (k: nat, c: seq<Issue>) => k <= |steps| && OrderAt(ws, steps, k, c, device);
    NoHistoryYet(ws[0], device);
    forall k: nat, c | k < |steps| && p(k, c)
      ensures p(k + 1, c + IssuedTo(ws[k], steps[k], ws[k + 1], device))
    {
      OrderStep(ws, steps, k, c, device);
    }
    AlongHistory(ws, steps, n, device, p);
  }

  lemma {:induction false} SuffixStored(ws: seq<World>, steps: seq<Step>, n: nat, device: Id) returns (cut: nat)
    requires IsRun(ws, steps) && Initial(ws[0]) && n < |ws|
    requires InOrder(ws, steps, n, device)
    ensures StoredFrom(ws[n], History(ws, steps, n, device), cut)
    decreases n
  {
    if n == 0 {
      cut := 0;
    } else {
      cut := SuffixStored(ws, steps, n - 1, device);
      cut := SuffixStep(ws, steps, n - 1, device, cut);
    }
  }

  lemma SuffixStep(ws: seq<World>, steps: seq<Step>, n: nat, device: Id, cut: nat) returns (cut1: nat)
    requires IsRun(ws, steps) && Initial(ws[0]) && n < |steps|
    requires InOrder(ws, steps, n, device) && StoredFrom(ws[n], History(ws, steps, n, device), cut)
    ensures StoredFrom(ws[n + 1], History(ws, steps, n, device) + IssuedTo(ws[n], steps[n], ws[n + 1], device), cut1)
  {
    var c := History(ws, steps, n, device);
    HistoryHolds(ws, steps, n, device);
    SortedExactlyInOrder(ws, steps, n, device);
    RunsKeepInv(ws, steps, n);
    assert StepAt(ws, steps, n);
    cut1 := ChainStep(ws[n], steps[n], c, device, cut);
  }

  /**
   * As long as no rotation of the device is out of order, its stored refresh rows are at every
   * moment a contiguous suffix of its full rotation history, linked parent to child, with
   * expiries that never decrease: cleanup only takes the oldest part.
   */
  lemma ChainsLoseOnlyTheirOldestPart(ws: seq<World>, steps: seq<Step>, n: nat, device: Id) returns (cut: nat)
    requires IsRun(ws, steps) && Initial(ws[0]) && n < |ws|
    requires InOrder(ws, steps, n, device)
    ensures var c := History(ws, steps, n, device);
            HistoryInv(ws[n], c, device) && ExpirySorted(c) && StoredFrom(ws[n], c, cut)
  {
    HistoryHolds(ws, steps, n, device);
    SortedExactlyInOrder(ws, steps, n, device);
    cut := SuffixStored(ws, steps, n, device);
  }

  lemma ChainStep(w: World, s: Step, c: seq<Issue>, device: Id, cut: nat) returns (cut1: nat)
    requires Inv(w) && Enabled(w, s) && HistoryInv(w, c, device) && ExpirySorted(c) && StoredFrom(w, c, cut)
    ensures StoredFrom(Next(w, s), c + IssuedTo(w, s, Next(w, s), device), cut1)
  {
    if s.CleanupStep? {
      CleanupMovesCut(w, s, c, device, cut);
      cut1 := if s.deletes >= 2 then CutAt(c, cut, Unix(s.now)) else cut;
      assert c + IssuedTo(w, s, Next(w, s), device) == c;
    } else {
      OtherStepsKeepCut(w, s, c, device, cut);
      cut1 := cut;
    }
  }

  // ----- lifetimes

  /** A restart that does not shorten the refresh lifetime. */
  predicate KeepsLifetime(w: World, s: Step) {
    s.RestartStep? ==> s.config.refreshTTL >= w.cfg.refreshTTL
  }

  ghost predicate WithinLifetime(w: World) {
    forall i :: i in w.t.refresh ==> w.t.refresh[i].expiresAt <= Unix(w.clock + w.cfg.refreshTTL)
  }

  lemma StepStaysWithinLifetime(w: World, s: Step)
    requires Inv(w) && Enabled(w, s) && KeepsLifetime(w, s) && WithinLifetime(w)
    ensures WithinLifetime(Next(w, s))
    ensures forall device :: !OutOfOrder(w, s, device)
  {
    match s
    case PollStep(_, _, _, _, _) => PollShape(w, s);
    case RefreshStep(_, _, _, _) =>
      if Refreshable(w, s) { RefreshShape(w, s); } else { RefusedRefresh(w, s); }
    case RevokeStep(_, _, _) => RevokeShape(w, s);
    case ProxyStep(_, _, _) => ProxyShape(w, s);
    case _ =>
  }

  /** While no restart shortens the refresh lifetime no rotation is out of order. */
  lemma {:induction false} KeptLifetimesKeepOrder(ws: seq<World>, steps: seq<Step>, n: nat, device: Id)
    requires IsRun(ws, steps) && Initial(ws[0]) && n < |ws|
    requires forall k :: 0 <= k < n ==> KeepsLifetime(ws[k], steps[k])
    ensures WithinLifetime(ws[n]) && InOrder(ws, steps, n, device)
  {
    if n > 0 {
      KeptLifetimesKeepOrder(ws, steps, n - 1, device);
      RunsKeepInv(ws, steps, n - 1);
      assert StepAt(ws, steps, n - 1);
      StepStaysWithinLifetime(ws[n - 1], steps[n - 1]);
    }
  }

  // ----- a rotation out of order

  /**
   * After a rotation out of order a cleanup takes the new row and leaves the row it replaced
   * exactly when it runs in the seconds between their two expiries.
   */
  lemma WhenCleanupTakesTheChild(w: World, s: Step, x: Step, device: Id)
    requires Inv(w) && Enabled(w, s) && OutOfOrder(w, s, device) && Enabled(Next(w, s), x) && x.CleanupStep?
    requires x.deletes >= 2
    ensures var parent := FindRefresh(w.t.refresh, HashSecret(w.cfg, s.token)).value;
            var after := Next(Next(w, s), x).t.refresh;
            (parent in after && s.mint.refreshId !in after) <==>
            Unix(s.refreshClock.issue + w.cfg.refreshTTL) < Unix(x.now) <= UsedRow(w, s).expiresAt
  {
    RefreshShape(w, s);
    assert Next(Next(w, s), x).t.refresh == KeptRefresh(Next(w, s).t.refresh, Unix(x.now));
  }

  /** Every cleanup leaves a suffix of what is stored of a history if and only if its expiries are sorted. */
  lemma SuffixIffSorted(w: World, c: seq<Issue>, device: Id, cut: nat)
    requires HistoryInv(w, c, device) && StoredFrom(w, c, cut)
    ensures (forall now :: LeavesSuffix(w, c, now)) <==> ExpirySorted(c[cut..])
  {
    var stored := c[cut..];
    forall now | ExpirySorted(stored)
      ensures LeavesSuffix(w, c, now)
    {
      assert forall k :: cut <= k < |c| ==> stored[k - cut] == c[k];
      forall k, l | 0 <= k <= l < |c| && c[k].id in KeptRefresh(w.t.refresh, now)
        ensures c[l].id in KeptRefresh(w.t.refresh, now)
      {
        assert stored[k - cut].row.expiresAt <= stored[l - cut].row.expiresAt;
      }
    }
    if !ExpirySorted(stored) {
      var k, l :| 0 <= k <= l < |stored| && stored[k].row.expiresAt > stored[l].row.expiresAt;
      var now := stored[k].row.expiresAt;
      assert c[cut + k].id in KeptRefresh(w.t.refresh, now) && c[cut + l].id !in KeptRefresh(w.t.refresh, now);
      assert !LeavesSuffix(w, c, now);
    }
  }

  /** Once a row of the chain survives the cleanup, all newer ones do. */
  ghost predicate LeavesSuffix(w: World, c: seq<Issue>, now: Seconds) {
    var kept := KeptRefresh(w.t.refresh, now);
    forall k, l :: 0 <= k <= l < |c| && c[k].id in kept ==> c[l].id in kept
  }
}
