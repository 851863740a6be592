/** Laws of refresh and access tokens over whole runs, serial grain. */
module SessionLaws {
  import opened Base
  import opened Tables
  import opened Broker
  import opened Invariants

  // ----- how rows come and go in one step

  /** Sessions are only ever created for a device drawn in this step or for one that holds an unrevoked refresh row. */
  ghost predicate Entitled(w: World, device: Id) {
    || device !in w.ids
    || exists j :: j in w.t.refresh && w.t.refresh[j].revokedAt.None? && w.t.refresh[j].device == device
  }

  lemma RefreshRowsEvolve(w: World, s: Step, i: Id)
    requires Inv(w) && Enabled(w, s) && i in Next(w, s).t.refresh
    ensures var row := Next(w, s).t.refresh[i];
            || (i in w.t.refresh && SameUpToMarks(w.t.refresh[i], row))
            || (row.hash !in w.hashes && i !in w.ids && Entitled(w, row.device))
  {
    match s
    case PollStep(_, _, _, _, _) => PollShape(w, s);
    case RefreshStep(_, _, _, _) =>
      if Refreshable(w, s) { RefreshShape(w, s); } else { RefusedRefresh(w, s); }
    case RevokeStep(_, _, _) => RevokeShape(w, s);
    case ProxyStep(_, _, _) => ProxyShape(w, s);
    case _ =>
  }

  lemma AccessRowsEvolve(w: World, s: Step, i: Id)
    requires Inv(w) && Enabled(w, s) && i in Next(w, s).t.access
    ensures var row := Next(w, s).t.access[i];
            (&& i in w.t.access && row.hash == w.t.access[i].hash && row.device == w.t.access[i].device
             && (w.t.access[i].revokedAt.Some? ==> row.revokedAt.Some?))
            || (row.hash !in w.hashes && i !in w.ids && Entitled(w, row.device))
  {
    match s
    case PollStep(_, _, _, _, _) => PollShape(w, s);
    case RefreshStep(_, _, _, _) =>
      if Refreshable(w, s) { RefreshShape(w, s); } else { RefusedRefresh(w, s); }
    case RevokeStep(_, _, _) => RevokeShape(w, s);
    case ProxyStep(_, _, _) => ProxyShape(w, s);
    case _ =>
  }

  // ----- a refresh token works once

  /** The token with this digest has been used up: its row is rotated, or gone for good. */
  ghost predicate Spent(w: World, h: Digest) {
    h in w.hashes && forall i :: i in w.t.refresh && w.t.refresh[i].hash == h ==> w.t.refresh[i].rotatedAt.Some?
  }

  lemma UseSpends(w: World, s: Step)
    requires Inv(w) && Enabled(w, s) && s.RefreshStep? && Respond(w, s).RefreshedWith?
    ensures Spent(Next(w, s), HashSecret(w.cfg, s.token))
  {
    if !Refreshable(w, s) { RefusedRefresh(w, s); }
    RefreshShape(w, s);
  }

  lemma SpentStays(w: World, s: Step, h: Digest)
    requires Inv(w) && Enabled(w, s) && Spent(w, h)
    ensures Spent(Next(w, s), h)
  {
    forall i | i in Next(w, s).t.refresh && Next(w, s).t.refresh[i].hash == h
      ensures Next(w, s).t.refresh[i].rotatedAt.Some?
    {
      RefreshRowsEvolve(w, s, i);
    }
  }

  lemma SpentForever(ws: seq<World>, steps: seq<Step>, i: nat, j: nat, h: Digest)
    requires IsRun(ws, steps) && i <= j < |ws| && Inv(ws[i]) && Spent(ws[i], h)
    ensures Spent(ws[j], h)
  {
    var p := (v: World) => Inv(v) && Spent(v, h);
    forall v, s | p(v) && Enabled(v, s)
      ensures p(Next(v, s))
    {
      NextKeepsInv(v, s);
      SpentStays(v, s, h);
    }
    Preserved(ws, steps, i, j, p);
  }

  /**
   * A refresh token that was exchanged once is never exchanged again, whatever cleanups,
   * restarts, revocations and failing calls lie in between. Two presentations count as the
   * same token when their digests agree, so this covers restarts that keep the server secret.
   */
  lemma RefreshTokensAreSingleUse(ws: seq<World>, steps: seq<Step>, i: nat, j: nat)
    requires IsRun(ws, steps) && Inv(ws[0]) && i < j < |steps|
    requires steps[i].RefreshStep? && ReplyAt(ws, steps, i).RefreshedWith?
    requires steps[j].RefreshStep?
    requires HashSecret(ws[j].cfg, steps[j].token) == HashSecret(ws[i].cfg, steps[i].token)
    ensures !ReplyAt(ws, steps, j).RefreshedWith?
  {
    SecondUseFails(ws[j], steps[j], HashSecret(ws[i].cfg, steps[i].token)) by {
      RunsKeepInv(ws, steps, i);
      assert StepAt(ws, steps, i);
      UseSpends(ws[i], steps[i]);
      RunsKeepInv(ws, steps, i + 1);
      SpentForever(ws, steps, i + 1, j, HashSecret(ws[i].cfg, steps[i].token));
    }
  }

  lemma SecondUseFails(w: World, s: Step, h: Digest)
    requires s.RefreshStep? && Spent(w, h) && HashSecret(w.cfg, s.token) == h
    ensures !Respond(w, s).RefreshedWith?
  {
    RefusedRefresh(w, s);
  }

  /** In every reachable world a device has at most one refresh row left to rotate. */
  lemma OneLiveRowPerDevice(ws: seq<World>, steps: seq<Step>, n: nat, i: Id, j: Id)
    requires IsRun(ws, steps) && Initial(ws[0]) && n < |ws|
    requires Live(ws[n].t.refresh, i) && Live(ws[n].t.refresh, j)
    requires ws[n].t.refresh[i].device == ws[n].t.refresh[j].device
    ensures i == j
  {
    RunsKeepInv(ws, steps, n);
  }

  // ----- revocation is for good

  /** The device exists and every session stored for it is revoked. */
  ghost predicate AllRevoked(w: World, device: Id) {
    && device in w.ids
    && (forall i :: i in w.t.refresh && w.t.refresh[i].device == device ==> w.t.refresh[i].revokedAt.Some?)
    && (forall i :: i in w.t.access && w.t.access[i].device == device ==> w.t.access[i].revokedAt.Some?)
  }

  /** The digest was handed out, and only this device's rows carry it. */
  ghost predicate Belongs(w: World, h: Digest, device: Id) {
    && h in w.hashes
    && (forall i :: i in w.t.refresh && w.t.refresh[i].hash == h ==> w.t.refresh[i].device == device)
    && (forall i :: i in w.t.access && w.t.access[i].hash == h ==> w.t.access[i].device == device)
  }

  /** A row of one of the session tables ties the digest to the device. */
  ghost predicate Owns(w: World, h: Digest, device: Id) {
    || (exists i :: i in w.t.refresh && w.t.refresh[i].hash == h && w.t.refresh[i].device == device)
    || (exists i :: i in w.t.access && w.t.access[i].hash == h && w.t.access[i].device == device)
  }

  lemma OwnedBelongs(w: World, h: Digest, device: Id)
    requires Inv(w) && Owns(w, h, device)
    ensures Belongs(w, h, device)
  {
  }

  lemma AllRevokedStays(w: World, s: Step, device: Id)
    requires Inv(w) && Enabled(w, s) && AllRevoked(w, device)
    ensures AllRevoked(Next(w, s), device)
  {
    var w1 := Next(w, s);
    forall i | i in w1.t.refresh && w1.t.refresh[i].device == device
      ensures w1.t.refresh[i].revokedAt.Some?
    {
      RefreshRowsEvolve(w, s, i);
    }
    forall i | i in w1.t.access && w1.t.access[i].device == device
      ensures w1.t.access[i].revokedAt.Some?
    {
      AccessRowsEvolve(w, s, i);
    }
  }

  lemma BelongsStays(w: World, s: Step, h: Digest, device: Id)
    requires Inv(w) && Enabled(w, s) && Belongs(w, h, device)
    ensures Belongs(Next(w, s), h, device)
  {
    var w1 := Next(w, s);
    forall i | i in w1.t.refresh && w1.t.refresh[i].hash == h
      ensures w1.t.refresh[i].device == device
    {
      RefreshRowsEvolve(w, s, i);
    }
    forall i | i in w1.t.access && w1.t.access[i].hash == h
      ensures w1.t.access[i].device == device
    {
      AccessRowsEvolve(w, s, i);
    }
  }

  lemma AllRevokedForever(ws: seq<World>, steps: seq<Step>, i: nat, j: nat, device: Id)
    requires IsRun(ws, steps) && i <= j < |ws| && Inv(ws[i]) && AllRevoked(ws[i], device)
    ensures AllRevoked(ws[j], device)
  {
    var p := (v: World) => Inv(v) && AllRevoked(v, device);
    forall v, s | p(v) && Enabled(v, s)
      ensures p(Next(v, s))
    {
      NextKeepsInv(v, s);
      AllRevokedStays(v, s, device);
    }
    Preserved(ws, steps, i, j, p);
  }

  lemma BelongsForever(ws: seq<World>, steps: seq<Step>, i: nat, j: nat, h: Digest, device: Id)
    requires IsRun(ws, steps) && i <= j < |ws| && Inv(ws[i]) && Belongs(ws[i], h, device)
    ensures Belongs(ws[j], h, device)
  {
    var p := (v: World) => Inv(v) && Belongs(v, h, device);
    forall v, s | p(v) && Enabled(v, s)
      ensures p(Next(v, s))
    {
      NextKeepsInv(v, s);
      BelongsStays(v, s, h, device);
    }
    Preserved(ws, steps, i, j, p);
  }

  /** The digest of a token the step presents, if it presents one. */
  predicate Presents(w: World, s: Step, h: Digest) {
    (s.RefreshStep? || s.ProxyStep? || s.RevokeStep?) && HashSecret(w.cfg, s.token) == h
  }

  predicate Accepts(r: Reply) {
    r.RefreshedWith? || r.Forwarded?
  }

  /** No request of a revoked device gets through, with any token. */
  lemma RevokedDeviceIsRefused(w: World, s: Step, device: Id)
    requires Inv(w) && AllRevoked(w, device)
    ensures Respond(w, s).Forwarded? ==> Respond(w, s).device != device
    ensures forall h :: Belongs(w, h, device) && Presents(w, s, h) ==> !Accepts(Respond(w, s))
  {
    if s.ProxyStep? {
      ProxyShape(w, s);
    } else if s.RefreshStep? {
      if !Refreshable(w, s) { RefusedRefresh(w, s); }
    }
  }

  /**
   * Once all sessions of a device are revoked (at i), no later step (j) accepts a token
   * that was stored for the device at any time up to then (k), and no later step forwards a
   * request as that device: not after restarts that put the e-mail back on the list either.
   */
  lemma RevocationIsForever(ws: seq<World>, steps: seq<Step>, i: nat, j: nat, k: nat, h: Digest, device: Id)
    requires IsRun(ws, steps) && Inv(ws[0]) && i <= j < |steps| && k <= j
    requires AllRevoked(ws[i], device)
    ensures ReplyAt(ws, steps, j).Forwarded? ==> ReplyAt(ws, steps, j).device != device
    ensures Owns(ws[k], h, device) && Presents(ws[j], steps[j], h) ==> !Accepts(ReplyAt(ws, steps, j))
  {
    RunsKeepInv(ws, steps, i);
    RunsKeepInv(ws, steps, k);
    AllRevokedForever(ws, steps, i, j, device);
    if Owns(ws[k], h, device) { OwnedBelongs(ws[k], h, device); BelongsForever(ws, steps, k, j, h, device); }
    RunsKeepInv(ws, steps, j);
    RevokedDeviceIsRefused(ws[j], steps[j], device);
  }

  /** DELETE with a stored access token, expired or not, revokes the whole device unless one of its calls fails. */
  lemma DeleteRevokesTheDevice(w: World, s: Step, i: Id)
    requires Inv(w) && Enabled(w, s) && s.RevokeStep?
    requires ReadAccess !in s.faults && Revocation !in s.faults
    requires i in w.t.access && w.t.access[i].hash == HashSecret(w.cfg, s.token)
    ensures Respond(w, s) == NoContent
    ensures AllRevoked(Next(w, s), w.t.access[i].device)
  {
    RevokeShape(w, s);
    assert FindAccess(w.t.access, HashSecret(w.cfg, s.token)) == Some(i);
  }

  /** So does a request whose device has dropped off the allow list. */
  lemma OffListRequestRevokesTheDevice(w: World, s: Step, i: Id)
    requires Inv(w) && Enabled(w, s) && s.ProxyStep? && Revocation !in s.faults && Admissible(w, s)
    requires i in w.t.access && w.t.access[i].hash == HashSecret(w.cfg, s.token)
    requires !IsEmailAllowed(w.cfg, w.t.devices[w.t.access[i].device].email)
    ensures Respond(w, s) == Unauthorized
    ensures AllRevoked(Next(w, s), w.t.access[i].device)
  {
    ProxyShape(w, s);
    assert FindAccess(w.t.access, HashSecret(w.cfg, s.token)) == Some(i);
  }
}
