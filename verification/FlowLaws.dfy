/** Laws of the device flow over whole runs, serial grain: progress, one delivery, provenance. */
module FlowLaws {
  import opened Base
  import opened Tables
  import opened Broker
  import opened Invariants
  import opened SessionLaws
  import Emails

  // ----- progress of one transaction

  /** A stored transaction only advances; only polls of that transaction touch it. */
  lemma StepAdvances(w: World, s: Step, id: Id)
    requires Inv(w) && Enabled(w, s) && id in w.ids
    ensures id in Next(w, s).t.auths ==> id in w.t.auths && Advances(w.t.auths[id], Next(w, s).t.auths[id])
    ensures id in w.t.auths && !(s.PollStep? && s.id == id) && id in Next(w, s).t.auths ==>
              Next(w, s).t.auths[id] == w.t.auths[id]
  {
    match s
    case PollStep(_, _, _, _, _) => PollShape(w, s);
    case RefreshStep(_, _, _, _) =>
      if Refreshable(w, s) { RefreshShape(w, s); } else { RefusedRefresh(w, s); }
    case RevokeStep(_, _, _) => RevokeShape(w, s);
    case ProxyStep(_, _, _) => ProxyShape(w, s);
    case _ =>
  }

  /** An advance of `row`, or a transaction that is no longer stored. */
  ghost predicate AtLeast(w: World, id: Id, row: AuthRow) {
    id in w.ids && (id in w.t.auths ==> Advances(row, w.t.auths[id]))
  }

  /**
   * Between any two moments of a run, the status rank of a transaction and its poll
   * interval never decrease, its expiry never changes, an approved or otherwise consumed
   * row never changes again, and a deleted transaction never comes back.
   */
  lemma TransactionsOnlyAdvance(ws: seq<World>, steps: seq<Step>, i: nat, j: nat, id: Id)
    requires IsRun(ws, steps) && Inv(ws[0]) && i <= j < |ws| && id in ws[i].t.auths
    ensures id in ws[j].t.auths ==> Advances(ws[i].t.auths[id], ws[j].t.auths[id])
    ensures forall k :: i <= k <= j && id !in ws[k].t.auths ==> id !in ws[j].t.auths
  {
    RunsKeepInv(ws, steps, i);
    var row := ws[i].t.auths[id];
    AtLeastForever(ws, steps, i, j, id, row);
    forall k | i <= k <= j && id !in ws[k].t.auths
      ensures id !in ws[j].t.auths
    {
      AtLeastForever(ws, steps, i, k, id, row);
      RunsKeepInv(ws, steps, k);
      GoneForever(ws, steps, k, j, id);
    }
  }

  lemma AtLeastForever(ws: seq<World>, steps: seq<Step>, i: nat, j: nat, id: Id, row: AuthRow)
    requires IsRun(ws, steps) && i <= j < |ws| && Inv(ws[i]) && AtLeast(ws[i], id, row)
    ensures AtLeast(ws[j], id, row)
  {
    var p := (v: World) => Inv(v) && AtLeast(v, id, row);
    forall v, s | p(v) && Enabled(v, s)
      ensures p(Next(v, s))
    {
      NextKeepsInv(v, s);
      StepAdvances(v, s, id);
    }
    Preserved(ws, steps, i, j, p);
  }

  lemma GoneForever(ws: seq<World>, steps: seq<Step>, i: nat, j: nat, id: Id)
    requires IsRun(ws, steps) && i <= j < |ws| && Inv(ws[i]) && id in ws[i].ids && id !in ws[i].t.auths
    ensures id !in ws[j].t.auths
  {
    var p := (v: World) => Inv(v) && id in v.ids && id !in v.t.auths;
    forall v, s | p(v) && Enabled(v, s)
      ensures p(Next(v, s))
    {
      NextKeepsInv(v, s);
      StepAdvances(v, s, id);
    }
    Preserved(ws, steps, i, j, p);
  }

  // ----- consumed exactly when approved

  ghost predicate ConsumedMeansApproved(t: Tables) {
    forall i :: i in t.auths ==> (t.auths[i].consumedAt.Some? <==> t.auths[i].status == Approved)
  }

  /** The one loss that matters: a pairing whose consumed mark is written and whose status is not. */
  ghost predicate LosesStatusOnly(w: World, s: Step) {
    s.PollStep? && Approvable(w, s) && PairingStage(s.faults) == 3
    && WriteStatus in s.faults && WriteConsumed !in s.faults
  }

  /** A poll keeps the two marks together exactly when it does not suffer that loss. */
  lemma WhenAPollKeepsConsumed(w: World, s: Step)
    requires Inv(w) && Enabled(w, s) && s.PollStep? && ConsumedMeansApproved(w.t)
    ensures ConsumedMeansApproved(Next(w, s).t) <==> !LosesStatusOnly(w, s)
  {
    if Approvable(w, s) {
      PollApproves(w, s);
      ApproveEffect(w, s);
      if LosesStatusOnly(w, s) {
        assert s.id in Next(w, s).t.auths;
      }
    } else {
      UnapprovableEffect(w, s);
    }
  }

  lemma StepKeepsConsumed(w: World, s: Step)
    requires Inv(w) && Enabled(w, s) && ConsumedMeansApproved(w.t)
    ensures ConsumedMeansApproved(Next(w, s).t) <==> !LosesStatusOnly(w, s)
  {
    if s.PollStep? {
      WhenAPollKeepsConsumed(w, s);
    } else {
      forall i | i in Next(w, s).t.auths && i in w.t.auths
        ensures Next(w, s).t.auths[i] == w.t.auths[i]
      {
        StepAdvances(w, s, i);
      }
      forall i | i in Next(w, s).t.auths && i !in w.t.auths
        ensures Next(w, s).t.auths[i].status == Pending && Next(w, s).t.auths[i].consumedAt.None?
      {
        NewAuthIsPending(w, s, i);
      }
    }
  }

  lemma NewAuthIsPending(w: World, s: Step, i: Id)
    requires Inv(w) && Enabled(w, s) && i in Next(w, s).t.auths && i !in w.t.auths
    ensures s.CreateStep? && Next(w, s).t.auths[i].status == Pending && Next(w, s).t.auths[i].consumedAt.None?
  {
    match s
    case PollStep(_, _, _, _, _) => PollShape(w, s);
    case RefreshStep(_, _, _, _) =>
      if Refreshable(w, s) { RefreshShape(w, s); } else { RefusedRefresh(w, s); }
    case RevokeStep(_, _, _) => RevokeShape(w, s);
    case ProxyStep(_, _, _) => ProxyShape(w, s);
    case _ =>
  }

  /**
   * Every transaction is consumed exactly when it is approved, in all worlds of a run, if and
   * only if no poll suffers that loss.
   */
  lemma {:induction false} ConsumedExactlyWhenApproved(ws: seq<World>, steps: seq<Step>, n: nat)
    requires IsRun(ws, steps) && Initial(ws[0]) && n < |ws|
    ensures (forall m :: 0 <= m <= n ==> ConsumedMeansApproved(ws[m].t)) <==>
            (forall k :: 0 <= k < n ==> !LosesStatusOnly(ws[k], steps[k]))
  {
    if n > 0 {
      ConsumedExactlyWhenApproved(ws, steps, n - 1);
      RunsKeepInv(ws, steps, n - 1);
      assert StepAt(ws, steps, n - 1);
      if ConsumedMeansApproved(ws[n - 1].t) {
        StepKeepsConsumed(ws[n - 1], steps[n - 1]);
      }
    }
  }

  // ----- one delivery per transaction

  /** The transaction is known and closed: consumed, or deleted. */
  ghost predicate Closed(w: World, id: Id) {
    id in w.ids && (id in w.t.auths ==> w.t.auths[id].consumedAt.Some?)
  }

  lemma ClosedStays(w: World, s: Step, id: Id)
    requires Inv(w) && Enabled(w, s) && Closed(w, id)
    ensures Closed(Next(w, s), id)
  {
    StepAdvances(w, s, id);
  }

  lemma ClosedForever(ws: seq<World>, steps: seq<Step>, i: nat, j: nat, id: Id)
    requires IsRun(ws, steps) && i <= j < |ws| && Inv(ws[i]) && Closed(ws[i], id)
    ensures Closed(ws[j], id)
  {
    var p := (v: World) => Inv(v) && Closed(v, id);
    forall v, s | p(v) && Enabled(v, s)
      ensures p(Next(v, s))
    {
      NextKeepsInv(v, s);
      ClosedStays(v, s, id);
    }
    Preserved(ws, steps, i, j, p);
  }

  /**
   * Handing out a token pair closes the transaction unless the status write and the
   * consumed write are both lost; each of the two alone is enough.
   */
  lemma DeliveryCloses(w: World, s: Step)
    requires Inv(w) && Enabled(w, s) && s.PollStep? && Respond(w, s).ApprovedWith?
    ensures Closed(Next(w, s), s.id) <==> !(WriteStatus in s.faults && WriteConsumed in s.faults)
    ensures !Closed(Next(w, s), s.id) ==> Next(w, s).t.auths == w.t.auths
  {
    PollShape(w, s);
    PollApproves(w, s);
  }

  /** A closed transaction hands out nothing and pairs nothing, whatever GitHub answers. */
  lemma ClosedDeliversNothing(w: World, s: Step)
    requires Inv(w) && s.PollStep? && Closed(w, s.id)
    ensures !Respond(w, s).ApprovedWith?
    ensures Next(w, s).t.devices == w.t.devices && Next(w, s).t.access == w.t.access
    ensures Next(w, s).t.refresh == w.t.refresh
  {
    UnapprovableEffect(w, s);
  }

  /**
   * A transaction hands out at most one token pair, and after it no device is paired
   * through the transaction again, unless the delivering poll lost both of its marks.
   */
  lemma AtMostOneDelivery(ws: seq<World>, steps: seq<Step>, i: nat, j: nat)
    requires IsRun(ws, steps) && Inv(ws[0]) && i < j < |steps|
    requires steps[i].PollStep? && steps[j].PollStep? && steps[i].id == steps[j].id
    requires ReplyAt(ws, steps, i).ApprovedWith?
    requires !(WriteStatus in steps[i].faults && WriteConsumed in steps[i].faults)
    ensures !ReplyAt(ws, steps, j).ApprovedWith?
    ensures ws[j + 1].t.devices == ws[j].t.devices
  {
    ClosedAfterDelivery(ws, steps, i, j);
    RunsKeepInv(ws, steps, j);
    ClosedDeliversNothing(ws[j], steps[j]);
    assert StepAt(ws, steps, j);
  }

  lemma ClosedAfterDelivery(ws: seq<World>, steps: seq<Step>, i: nat, j: nat)
    requires IsRun(ws, steps) && Inv(ws[0]) && i < j < |ws| && i < |steps| && steps[i].PollStep?
    requires ReplyAt(ws, steps, i).ApprovedWith?
    requires !(WriteStatus in steps[i].faults && WriteConsumed in steps[i].faults)
    ensures Closed(ws[j], steps[i].id)
  {
    assert Inv(ws[i + 1]) && Closed(ws[i + 1], steps[i].id) by {
      RunsKeepInv(ws, steps, i);
      assert StepAt(ws, steps, i);
      NextKeepsInv(ws[i], steps[i]);
      DeliveryCloses(ws[i], steps[i]);
    }
    ClosedForever(ws, steps, i + 1, j, steps[i].id);
  }

  /** When both marks are lost the transaction is as it was, and the next answer from GitHub pairs a second device. */
  lemma LostMarksAllowASecondDelivery(w: World, s: Step, again: Step)
    requires Inv(w) && Enabled(w, s) && s.PollStep? && Respond(w, s).ApprovedWith?
    requires WriteStatus in s.faults && WriteConsumed in s.faults
    requires Enabled(Next(w, s), again) && again.PollStep? && again.id == s.id && again.faults == {}
    requires again.answer == s.answer
    requires !Expired(again.pollClock.check, w.t.auths[s.id].expiresAt)
    ensures Respond(Next(w, s), again).ApprovedWith?
  {
    DeliveryCloses(w, s);
    NextKeepsInv(w, s);
    PollShape(w, s);
    FaultlessApprovalDelivers(Next(w, s), again);
  }

  /** Without faults an approvable poll pairs a device with both its sessions and hands out the tokens. */
  lemma FaultlessApprovalDelivers(w: World, s: Step)
    requires Inv(w) && Enabled(w, s) && s.PollStep? && Approvable(w, s) && s.faults == {}
    ensures Respond(w, s).ApprovedWith? && Respond(w, s).email == PrimaryEmail(s.answer.emails)
    ensures Next(w, s).t.devices == w.t.devices[s.mint.deviceId := PairedDevice(s)]
    ensures Next(w, s).t.access
          == w.t.access[s.mint.accessId := NewAccess(w, s.mint, s.mint.deviceId, s.pollClock.issue)]
    ensures Next(w, s).t.refresh == w.t.refresh[s.mint.refreshId := PairedRefresh(w, s)]
  {
    PollApproves(w, s);
  }

  /** The faults of a pairing poll that let its transaction pair no second device. */
  predicate PairsForGood(faults: set<Point>) {
    PairingStage(faults) == 3 && !(WriteStatus in faults && WriteConsumed in faults)
  }

  ghost predicate PairsADevice(w: World, s: Step) {
    s.PollStep? && Next(w, s).t.devices != w.t.devices
  }

  /**
   * A poll that pairs a device closes its transaction if and only if all three inserts take
   * place and not both marks are lost; otherwise it leaves the transaction as it was.
   */
  lemma PairingCloses(w: World, s: Step)
    requires Inv(w) && Enabled(w, s) && PairsADevice(w, s)
    ensures Approvable(w, s)
    ensures Closed(Next(w, s), s.id) <==> PairsForGood(s.faults)
    ensures !Closed(Next(w, s), s.id) ==> Next(w, s).t.auths == w.t.auths
  {
    if Approvable(w, s) {
      PollApproves(w, s);
      ApproveEffect(w, s);
    } else {
      UnapprovableEffect(w, s);
    }
  }

  /** After a pairing for good no later poll pairs a device through the transaction. */
  lemma OneDevicePerTransaction(ws: seq<World>, steps: seq<Step>, i: nat, j: nat)
    requires IsRun(ws, steps) && Inv(ws[0]) && i < j < |steps|
    requires PairsADevice(ws[i], steps[i]) && steps[j].PollStep? && steps[i].id == steps[j].id
    requires PairsForGood(steps[i].faults)
    ensures !PairsADevice(ws[j], steps[j]) && !ReplyAt(ws, steps, j).ApprovedWith?
  {
    RunsKeepInv(ws, steps, i);
    RunsKeepInv(ws, steps, j);
    assert StepAt(ws, steps, i);
    NextKeepsInv(ws[i], steps[i]);
    PairingCloses(ws[i], steps[i]);
    ClosedForever(ws, steps, i + 1, j, steps[i].id);
    ClosedDeliversNothing(ws[j], steps[j]);
  }

  /** A transaction that nobody polls stays as it is until it expires. */
  lemma {:induction false} UnpolledStays(ws: seq<World>, steps: seq<Step>, i: nat, j: nat, id: Id, at: Instant)
    requires IsRun(ws, steps) && i <= j < |ws| && Inv(ws[0]) && id in ws[i].t.auths
    requires forall k :: i <= k < j ==> !(steps[k].PollStep? && steps[k].id == id)
    requires ws[j].clock <= at && !Expired(at, ws[i].t.auths[id].expiresAt)
    ensures id in ws[j].t.auths && ws[j].t.auths[id] == ws[i].t.auths[id]
    decreases j
  {
    if i < j {
      assert StepAt(ws, steps, j - 1);
      ClockAdvances(ws[j - 1], steps[j - 1]);
      UnpolledStays(ws, steps, i, j - 1, id, at);
      RunsKeepInv(ws, steps, j - 1);
      UnpolledStep(ws[j - 1], steps[j - 1], id, at);
    }
  }

  lemma ClockAdvances(w: World, s: Step)
    requires Enabled(w, s)
    ensures w.clock <= Next(w, s).clock
  {
  }

  lemma UnpolledStep(w: World, s: Step, id: Id, at: Instant)
    requires Inv(w) && Enabled(w, s) && id in w.t.auths && !(s.PollStep? && s.id == id)
    requires Next(w, s).clock <= at && !Expired(at, w.t.auths[id].expiresAt)
    ensures id in Next(w, s).t.auths && Next(w, s).t.auths[id] == w.t.auths[id]
  {
    StepAdvances(w, s, id);
    AuthsSurvive(w, s, id, at);
  }

  lemma AuthsSurvive(w: World, s: Step, id: Id, at: Instant)
    requires Inv(w) && Enabled(w, s) && id in w.t.auths && Next(w, s).clock <= at
    requires !Expired(at, w.t.auths[id].expiresAt)
    ensures id in Next(w, s).t.auths
  {
    match s
    case PollStep(_, _, _, _, _) => PollShape(w, s);
    case RefreshStep(_, _, _, _) =>
      if Refreshable(w, s) { RefreshShape(w, s); } else { RefusedRefresh(w, s); }
    case RevokeStep(_, _, _) => RevokeShape(w, s);
    case ProxyStep(_, _, _) => ProxyShape(w, s);
    case CleanupStep(now, _) =>
      if Collectable(now, w.t.auths[id].expiresAt) { CollectableIsExpired(now, at, w.t.auths[id].expiresAt); }
    case _ =>
  }

  /** GitHub answers without a fault, before the transaction expires, with an e-mail that the list names. */
  ghost predicate AnsweredInTime(w: World, s: Step, expiresAt: Seconds) {
    && s.PollStep? && s.faults == {} && s.answer.TokenWithEmails? && PrimaryEmail(s.answer.emails) != ""
    && IsEmailAllowed(w.cfg, PrimaryEmail(s.answer.emails)) && !Expired(s.pollClock.check, expiresAt)
  }

  /**
   * When exactly a transaction pairs a second device: let a poll pair one (at i), and let the
   * next poll of that transaction (at j) be answered in time. It pairs another device if and
   * only if the first one failed before its last insert or lost both of its marks.
   */
  lemma WhenASecondDeviceIsPaired(ws: seq<World>, steps: seq<Step>, i: nat, j: nat)
    requires IsRun(ws, steps) && Inv(ws[0]) && i < j < |steps|
    requires PairsADevice(ws[i], steps[i]) && steps[j].PollStep? && steps[i].id == steps[j].id
    requires forall k :: i < k < j ==> !(steps[k].PollStep? && steps[k].id == steps[i].id)
    requires steps[i].id in ws[i].t.auths && AnsweredInTime(ws[j], steps[j], ws[i].t.auths[steps[i].id].expiresAt)
    ensures PairsADevice(ws[j], steps[j]) <==> !PairsForGood(steps[i].faults)
  {
    if PairsForGood(steps[i].faults) {
      OneDevicePerTransaction(ws, steps, i, j);
    } else {
      var id := steps[i].id;
      RunsKeepInv(ws, steps, i);
      RunsKeepInv(ws, steps, j);
      assert StepAt(ws, steps, i) && StepAt(ws, steps, j);
      PairingCloses(ws[i], steps[i]);
      assert ws[i + 1].t.auths == ws[i].t.auths;
      UnpolledStays(ws, steps, i + 1, j, id, steps[j].pollClock.check);
      SecondPairing(ws[j], steps[j]);
    }
  }

  lemma SecondPairing(w: World, s: Step)
    requires Inv(w) && Enabled(w, s) && s.PollStep? && s.faults == {} && Approvable(w, s)
    ensures PairsADevice(w, s)
  {
    FaultlessApprovalDelivers(w, s);
    assert s.mint.deviceId !in w.t.devices && s.mint.deviceId in Next(w, s).t.devices;
  }

  // ----- provenance of a forwarded request

  /** What the loop over GitHub's e-mails picks: the first entry that is both primary and verified. */
  lemma {:induction false} PrimaryEmailIsReported(emails: seq<GitHubEmail>) returns (k: nat)
    requires PrimaryEmail(emails) != ""
    ensures k < |emails| && emails[k].primary && emails[k].verified && emails[k].email == PrimaryEmail(emails)
    ensures forall l :: 0 <= l < k ==> !(emails[l].primary && emails[l].verified)
  {
    if emails[0].primary && emails[0].verified {
      k := 0;
    } else {
      var l := PrimaryEmailIsReported(emails[1..]);
      k := l + 1;
      assert forall m :: 0 < m < k ==> emails[m] == emails[1..][m - 1];
    }
  }

  /** The poll that paired the device, and the e-mail it stored. */
  ghost predicate PairedBy(w: World, s: Step, device: Id, email: string) {
    s.PollStep? && s.mint.deviceId == device && Approvable(w, s) && PrimaryEmail(s.answer.emails) == email
  }

  /** With all three inserts made the poll answers approved, and hands the tokens out. */
  ghost predicate DeliversFully(w: World, s: Step, email: string)
    requires s.PollStep?
  {
    PairingStage(s.faults) == 3 ==> Respond(w, s).ApprovedWith? && Respond(w, s).email == email
  }

  /** With only the first insert made the device has no session. */
  ghost predicate StrandsEarly(w: World, s: Step, device: Id)
    requires s.PollStep?
  {
    PairingStage(s.faults) <= 1 ==> NoSessions(Next(w, s), device)
  }

  ghost predicate NoSessions(w: World, device: Id) {
    && device in w.ids
    && (forall i :: i in w.t.refresh ==> w.t.refresh[i].device != device)
    && (forall i :: i in w.t.access ==> w.t.access[i].device != device)
  }

  lemma NobodyHoldsANewDevice(w: World, device: Id)
    requires Inv(w) && device !in w.ids
    ensures forall i :: i in w.t.refresh ==> w.t.refresh[i].device != device
    ensures forall i :: i in w.t.access ==> w.t.access[i].device != device
  {
  }

  lemma NoSessionsStay(w: World, s: Step, device: Id)
    requires Inv(w) && Enabled(w, s) && NoSessions(w, device)
    ensures NoSessions(Next(w, s), device)
  {
    forall i | i in Next(w, s).t.refresh
      ensures Next(w, s).t.refresh[i].device != device
    {
      RefreshRowsEvolve(w, s, i);
    }
    forall i | i in Next(w, s).t.access
      ensures Next(w, s).t.access[i].device != device
    {
      AccessRowsEvolve(w, s, i);
    }
  }

  lemma NoSessionsEver(ws: seq<World>, steps: seq<Step>, i: nat, j: nat, device: Id)
    requires IsRun(ws, steps) && i <= j < |ws| && Inv(ws[i]) && NoSessions(ws[i], device)
    ensures NoSessions(ws[j], device)
  {
    var p := (v: World) => Inv(v) && NoSessions(v, device);
    forall v, s | p(v) && Enabled(v, s)
      ensures p(Next(v, s))
    {
      NextKeepsInv(v, s);
      NoSessionsStay(v, s, device);
    }
    Preserved(ws, steps, i, j, p);
  }

  /**
   * A pairing that stops after its first insert, and no other, leaves a device without any
   * session; such a device never gets one.
   */
  lemma AFaultCanStrandADevice(ws: seq<World>, steps: seq<Step>, i: nat, j: nat)
    requires IsRun(ws, steps) && Inv(ws[0]) && i < |steps| && i < j < |ws|
    requires PairsADevice(ws[i], steps[i])
    ensures NoSessions(ws[i + 1], steps[i].mint.deviceId) <==> PairingStage(steps[i].faults) == 1
    ensures PairingStage(steps[i].faults) == 1 ==> NoSessions(ws[j], steps[i].mint.deviceId)
  {
    RunsKeepInv(ws, steps, i);
    assert StepAt(ws, steps, i);
    StrandedExactly(ws[i], steps[i]);
    if PairingStage(steps[i].faults) == 1 {
      RunsKeepInv(ws, steps, i + 1);
      NoSessionsEver(ws, steps, i + 1, j, steps[i].mint.deviceId);
    }
  }

  lemma StrandedExactly(w: World, s: Step)
    requires Inv(w) && Enabled(w, s) && PairsADevice(w, s)
    ensures NoSessions(Next(w, s), s.mint.deviceId) <==> PairingStage(s.faults) == 1
  {
    PairingCloses(w, s);
    PollApproves(w, s);
    ApproveEffect(w, s);
    NobodyHoldsANewDevice(w, s.mint.deviceId);
    if PairingStage(s.faults) >= 2 {
      var row := NewAccess(w, s.mint, s.mint.deviceId, s.pollClock.issue);
      assert s.mint.accessId in Next(w, s).t.access && Next(w, s).t.access[s.mint.accessId] == row;
    }
  }

  lemma DevicesKeepTheirEmail(w: World, s: Step, device: Id)
    requires Inv(w) && Enabled(w, s) && device in Next(w, s).t.devices
    ensures (device in w.t.devices && Next(w, s).t.devices[device].email == w.t.devices[device].email)
            || (PairedBy(w, s, device, Next(w, s).t.devices[device].email) && device !in w.t.devices
                && DeliversFully(w, s, Next(w, s).t.devices[device].email) && StrandsEarly(w, s, device))
  {
    match s
    case PollStep(_, _, _, _, _) =>
      PollShape(w, s);
      if Approvable(w, s) {
        PollApproves(w, s);
        ApproveEffect(w, s);
        NobodyHoldsANewDevice(w, s.mint.deviceId);
      }
    case RefreshStep(_, _, _, _) =>
      if Refreshable(w, s) { RefreshShape(w, s); } else { RefusedRefresh(w, s); }
    case RevokeStep(_, _, _) => RevokeShape(w, s);
    case ProxyStep(_, _, _) => ProxyShape(w, s);
    case _ =>
  }

  lemma {:induction false} DevicesArePaired(ws: seq<World>, steps: seq<Step>, n: nat, device: Id) returns (i: nat)
    requires IsRun(ws, steps) && Initial(ws[0]) && n < |ws| && device in ws[n].t.devices
    ensures i < n && PairedBy(ws[i], steps[i], device, ws[n].t.devices[device].email)
    ensures DeliversFully(ws[i], steps[i], ws[n].t.devices[device].email)
    ensures !NoSessions(ws[n], device) ==> PairingStage(steps[i].faults) >= 2
    decreases n
  {
    RunsKeepInv(ws, steps, n - 1);
    assert StepAt(ws, steps, n - 1);
    DevicesKeepTheirEmail(ws[n - 1], steps[n - 1], device);
    if device in ws[n - 1].t.devices {
      i := DevicesArePaired(ws, steps, n - 1, device);
      if NoSessions(ws[n - 1], device) {
        NoSessionsStay(ws[n - 1], steps[n - 1], device);
      }
    } else {
      i := n - 1;
    }
  }

  /**
   * Every forwarded request carries an e-mail that GitHub reported, in the earlier poll
   * that paired the device, as the first primary verified one; that named a field of the
   * allow list of that day; and that names a field of the allow list now.
   */
  lemma ForwardedEmailsComeFromGitHub(ws: seq<World>, steps: seq<Step>, j: nat) returns (i: nat, k: nat)
    requires IsRun(ws, steps) && Initial(ws[0]) && j < |steps| && ReplyAt(ws, steps, j).Forwarded?
    ensures i < j && steps[i].PollStep? && steps[i].mint.deviceId == ReplyAt(ws, steps, j).device
    ensures steps[i].answer.TokenWithEmails? && k < |steps[i].answer.emails|
    ensures var e := steps[i].answer.emails[k]; e.primary && e.verified && e.email == ReplyAt(ws, steps, j).email
    ensures forall l :: 0 <= l < k ==> !(steps[i].answer.emails[l].primary && steps[i].answer.emails[l].verified)
    ensures PairingStage(steps[i].faults) >= 2
    ensures PairingStage(steps[i].faults) == 3 ==>
              ReplyAt(ws, steps, i).ApprovedWith? && ReplyAt(ws, steps, i).email == ReplyAt(ws, steps, j).email
    ensures Emails.NamedIn(ws[i].cfg.lower, ws[i].cfg.allowList, ReplyAt(ws, steps, j).email)
    ensures Emails.NamedIn(ws[j].cfg.lower, ws[j].cfg.allowList, ReplyAt(ws, steps, j).email)
  {
    var device, email := ReplyAt(ws, steps, j).device, ReplyAt(ws, steps, j).email;
    ForwardedDevice(ws[j], steps[j]);
    assert !NoSessions(ws[j], device);
    i := DevicesArePaired(ws, steps, j, device);
    k := PrimaryEmailIsReported(steps[i].answer.emails);
    Emails.AllowListMeansNamed(ws[i].cfg.lower, ws[i].cfg.allowList, email);
    Emails.AllowListMeansNamed(ws[j].cfg.lower, ws[j].cfg.allowList, email);
  }

  lemma ForwardedDevice(w: World, s: Step)
    requires Respond(w, s).Forwarded?
    ensures s.ProxyStep? && Admissible(w, s)
    ensures exists i :: i in w.t.access && w.t.access[i].device == Respond(w, s).device
    ensures Respond(w, s).device in w.t.devices && w.t.devices[Respond(w, s).device].email == Respond(w, s).email
    ensures IsEmailAllowed(w.cfg, Respond(w, s).email)
  {
    if s.ProxyStep? { ProxyShape(w, s); }
  }
}
