/**
 * What each request answers and writes, in the terms of the stored rows alone: expiry,
 * rounding, digests and the allow list are written out, and every case of every handler
 * is there.
 */
module Decisions {
  import opened Base
  import opened Tables
  import opened Broker
  import opened Invariants
  import Emails

  // ----- POST /v1/device-authorizations

  lemma CreationDecides(w: World, s: Step)
    requires s.CreateStep?
    ensures if WriteAuth in s.faults || s.id in w.t.auths then
              Next(w, s).t == w.t && Respond(w, s) == ServerError
            else
              && Respond(w, s) == Created(s.id)
              && Next(w, s).t == w.t.(auths :=
                   w.t.auths[s.id := AuthRow(Pending, None, None, s.interval,
                                             (s.now + s.expiresIn * 1_000_000_000) / 1_000_000_000)])
  {
  }

  // ----- GET /v1/device-authorizations/{id}

  /** Unknown and consumed transactions are left alone. */
  lemma ClosedTransactionDecides(w: World, s: Step)
    requires s.PollStep?
    requires ReadAuth in s.faults || s.id !in w.t.auths || w.t.auths[s.id].consumedAt.Some?
    ensures Next(w, s).t == w.t
    ensures Respond(w, s) == if ReadAuth in s.faults then ServerError
                             else if s.id !in w.t.auths then NotFound
                             else AlreadyConsumed
  {
  }

  /** An expired transaction is marked, a settled one left alone. */
  lemma LateTransactionDecides(w: World, s: Step)
    requires s.PollStep? && ReadAuth !in s.faults && s.id in w.t.auths && w.t.auths[s.id].consumedAt.None?
    ensures var row := w.t.auths[s.id];
            if s.pollClock.check > row.expiresAt * 1_000_000_000 then
              && Respond(w, s) == StatusIs(ExpiredStatus)
              && Next(w, s).t == if WriteStatus in s.faults then w.t
                                 else w.t.(auths := w.t.auths[s.id := row.(status := ExpiredStatus)])
            else row.status != Pending && row.status != SlowDown ==>
              Respond(w, s) == StatusIs(row.status) && Next(w, s).t == w.t
  {
  }

  /** The transaction waits for GitHub, and has not expired. */
  ghost predicate Waiting(w: World, s: Step) {
    && s.PollStep? && ReadAuth !in s.faults && s.id in w.t.auths && w.t.auths[s.id].consumedAt.None?
    && s.pollClock.check <= w.t.auths[s.id].expiresAt * 1_000_000_000
    && (w.t.auths[s.id].status == Pending || w.t.auths[s.id].status == SlowDown)
  }

  lemma AnswerWithoutTokenDecides(w: World, s: Step)
    requires Waiting(w, s) && !s.answer.TokenWithEmails?
    ensures var row := w.t.auths[s.id];
            var lost := WriteStatus in s.faults;
            match s.answer
            case Undecryptable => Respond(w, s) == ServerError && Next(w, s).t == w.t
            case AskedToSlowDown(interval) =>
              && Respond(w, s) == StatusIs(SlowDown)
              && Next(w, s).t == if interval <= row.pollAfter || WritePollAfter in s.faults then w.t
                                 else w.t.(auths :=
                                        w.t.auths[s.id := row.(pollAfter := interval, status := SlowDown)])
            case TokenWithoutEmails =>
              && Respond(w, s) == StatusIs(Denied)
              && Next(w, s).t == if lost then w.t else w.t.(auths := w.t.auths[s.id := row.(status := Denied)])
            case _ => Respond(w, s) == StatusIs(row.status) && Next(w, s).t == w.t
  {
  }

  /** Entry `k` is the first that is primary and verified. */
  predicate FirstPrimary(emails: seq<GitHubEmail>, k: nat) {
    && k < |emails| && emails[k].primary && emails[k].verified
    && forall l :: 0 <= l < k ==> !(emails[l].primary && emails[l].verified)
  }

  /** The loop finds that entry, and nothing where there is none. */
  lemma {:induction false} PrimaryEmailIs(emails: seq<GitHubEmail>)
    ensures forall k: nat :: FirstPrimary(emails, k) ==> PrimaryEmail(emails) == emails[k].email
    ensures (forall k :: 0 <= k < |emails| ==> !(emails[k].primary && emails[k].verified)) ==>
              PrimaryEmail(emails) == ""
  {
    if emails != [] {
      var rest := emails[1..];
      PrimaryEmailIs(rest);
      forall k: nat | FirstPrimary(emails, k)
        ensures PrimaryEmail(emails) == emails[k].email
      {
        if k > 0 {
          assert !(emails[0].primary && emails[0].verified);
          assert forall l :: 0 <= l < k ==> rest[l] == emails[l + 1];
          assert FirstPrimary(rest, k - 1);
        }
      }
      assert forall k :: 0 <= k < |rest| ==> rest[k] == emails[k + 1];
    }
  }

  lemma NoUsableEmailDecides(w: World, s: Step)
    requires Waiting(w, s) && s.answer.TokenWithEmails?
    requires forall k: nat :: FirstPrimary(s.answer.emails, k) ==> s.answer.emails[k].email == ""
    ensures Respond(w, s) == StatusIs(Denied)
    ensures Next(w, s).t == if WriteStatus in s.faults then w.t
                            else w.t.(auths := w.t.auths[s.id := w.t.auths[s.id].(status := Denied)])
  {
    var emails := s.answer.emails;
    PrimaryEmailIs(emails);
    if k: nat :| k < |emails| && emails[k].primary && emails[k].verified {
      var f := EarliestPrimary(emails, k);
    }
  }

  lemma {:induction false} EarliestPrimary(emails: seq<GitHubEmail>, k: nat) returns (f: nat)
    requires k < |emails| && emails[k].primary && emails[k].verified
    ensures FirstPrimary(emails, f)
  {
    if l: nat :| l < k && emails[l].primary && emails[l].verified {
      f := EarliestPrimary(emails, l);
    } else {
      f := k;
    }
  }

  lemma UnlistedEmailDecides(w: World, s: Step, k: nat)
    requires Waiting(w, s) && s.answer.TokenWithEmails? && FirstPrimary(s.answer.emails, k)
    requires s.answer.emails[k].email != ""
    requires !Emails.Lists(w.cfg.lower, w.cfg.allowList, s.answer.emails[k].email)
    ensures Respond(w, s) == StatusIs(Forbidden)
    ensures Next(w, s).t == if WriteStatus in s.faults then w.t
                            else w.t.(auths := w.t.auths[s.id := w.t.auths[s.id].(status := Forbidden)])
  {
    FirstPrimaryDecides(w, s, k);
    UnapprovableEffect(w, s);
  }

  /** The poll takes the first primary verified e-mail, and asks whether the list lists it. */
  lemma FirstPrimaryDecides(w: World, s: Step, k: nat)
    requires Waiting(w, s) && s.answer.TokenWithEmails? && FirstPrimary(s.answer.emails, k)
    ensures var email := s.answer.emails[k].email;
            && PrimaryEmail(s.answer.emails) == email
            && (IsEmailAllowed(w.cfg, email) <==> Emails.Lists(w.cfg.lower, w.cfg.allowList, email))
            && (Approvable(w, s) <==> email != "" && IsEmailAllowed(w.cfg, email))
  {
    PrimaryEmailIs(s.answer.emails);
    Emails.AllowListMeansListed(w.cfg.lower, w.cfg.allowList, s.answer.emails[k].email);
  }

  /** The tables of a pairing that gets past its first `stage` inserts. */
  ghost predicate InsertsLeave(t: Tables, t1: Tables, cfg: Config, s: Step, email: string, stage: nat)
    requires s.PollStep?
  {
    var m, c := s.mint, s.pollClock;
    && t1.devices == (
         if stage < 1 then t.devices
         else t.devices[m.deviceId := Device(email, c.device / 1_000_000_000, c.device / 1_000_000_000, None)])
    && t1.access == (
         if stage < 2 then t.access
         else t.access[m.accessId := AccessRow(m.deviceId, cfg.sha(cfg.secret + m.accessToken), c.issue / 1_000_000_000,
                                               (c.issue + cfg.accessTTL) / 1_000_000_000, None)])
    && t1.refresh == (
         if stage < 3 then t.refresh
         else t.refresh[m.refreshId := RefreshRow(m.deviceId, cfg.sha(cfg.secret + m.refreshToken), None,
                                                  c.issue / 1_000_000_000,
                                                  (c.issue + cfg.refreshTTL) / 1_000_000_000, None, None)])
  }

  /**
   * A listed e-mail is paired: a device, an access and a refresh session, each unless the one
   * before it failed, then the two marks, each on its own.
   */
  lemma ListedEmailDecides(w: World, s: Step, k: nat)
    requires Inv(w) && Enabled(w, s) && Waiting(w, s) && s.answer.TokenWithEmails? && FirstPrimary(s.answer.emails, k)
    requires s.answer.emails[k].email != ""
    requires Emails.Lists(w.cfg.lower, w.cfg.allowList, s.answer.emails[k].email)
    ensures var email, m, c, f := s.answer.emails[k].email, s.mint, s.pollClock, s.faults;
            var t, t1 := w.t, Next(w, s).t;
            if MakeDeviceId in f || WriteDevice in f then
              Respond(w, s) == ServerError && InsertsLeave(t, t1, w.cfg, s, email, 0) && t1.auths == t.auths
            else if MakeTokens in f || MakeAccessId in f || WriteAccess in f then
              Respond(w, s) == ServerError && InsertsLeave(t, t1, w.cfg, s, email, 1) && t1.auths == t.auths
            else if MakeRefreshId in f || WriteRefresh in f then
              Respond(w, s) == ServerError && InsertsLeave(t, t1, w.cfg, s, email, 2) && t1.auths == t.auths
            else
              && Respond(w, s) == ApprovedWith(email, m.accessToken, m.refreshToken,
                                               (c.issue + w.cfg.accessTTL) / 1_000_000_000,
                                               (c.issue + w.cfg.refreshTTL) / 1_000_000_000)
              && InsertsLeave(t, t1, w.cfg, s, email, 3)
              && t1.auths == t.auths[s.id := t1.auths[s.id]]
              && MarkedAs(t.auths[s.id], t1.auths[s.id], email, c, WriteStatus !in f, WriteConsumed !in f)
  {
    FirstPrimaryDecides(w, s, k);
    PollApproves(w, s);
    ApproveEffect(w, s);
  }

  /** The row of a transaction after a delivery, with the status and the consumed mark written or not. */
  predicate MarkedAs(a: AuthRow, b: AuthRow, email: string, c: PollClock, status: bool, consumed: bool) {
    b == AuthRow(if status then Approved else a.status,
                 if status then Some(email) else a.approvedEmail,
                 if consumed then Some(c.consumed / 1_000_000_000)
                 else if status then Some(c.status / 1_000_000_000)
                 else a.consumedAt,
                 a.pollAfter, a.expiresAt)
  }

  // ----- POST /v1/sessions/refresh

  lemma UnknownRefreshTokenDecides(w: World, s: Step)
    requires s.RefreshStep?
    requires s.token == "" || ReadRefresh in s.faults
             || forall i :: i in w.t.refresh ==> w.t.refresh[i].hash != w.cfg.sha(w.cfg.secret + s.token)
    ensures Next(w, s).t == w.t
    ensures Respond(w, s) == if s.token == "" then BadRequest
                             else if ReadRefresh in s.faults then ServerError
                             else Unauthorized
  {
  }

  /** Every case of a refresh with a stored token. */
  lemma RefreshDecides(w: World, s: Step, i: Id)
    requires Inv(w) && Enabled(w, s) && s.RefreshStep? && s.token != "" && ReadRefresh !in s.faults
    requires i in w.t.refresh && w.t.refresh[i].hash == w.cfg.sha(w.cfg.secret + s.token)
    ensures var row, m, c, f := w.t.refresh[i], s.mint, s.refreshClock, s.faults;
            var t, t1 := w.t, Next(w, s).t;
            var withAccess := t.access[m.accessId := AccessRow(row.device, w.cfg.sha(w.cfg.secret + m.accessToken),
                                                               c.issue / 1_000_000_000,
                                                               (c.issue + w.cfg.accessTTL) / 1_000_000_000, None)];
            if row.revokedAt.Some? || row.rotatedAt.Some? || c.check > row.expiresAt * 1_000_000_000 then
              Respond(w, s) == Unauthorized && t1 == t
            else if ReadDevice in f then Respond(w, s) == ServerError && t1 == t
            else if t.devices[row.device].revokedAt.Some? then Respond(w, s) == Unauthorized && t1 == t
            else if MakeTokens in f || MakeAccessId in f || MakeRefreshId in f || WriteAccess in f then
              Respond(w, s) == ServerError && t1 == t
            else if Rotation in f then Respond(w, s) == ServerError && t1 == t.(access := withAccess)
            else
              && Respond(w, s) == RefreshedWith(m.accessToken, m.refreshToken,
                                                (c.issue + w.cfg.accessTTL) / 1_000_000_000,
                                                (c.issue + w.cfg.refreshTTL) / 1_000_000_000)
              && t1 == t.(access := withAccess,
                          refresh := t.refresh
                            [i := row.(rotatedAt := Some(c.rotate / 1_000_000_000))]
                            [m.refreshId := RefreshRow(row.device, w.cfg.sha(w.cfg.secret + m.refreshToken),
                                                       Some(row.hash), c.rotate / 1_000_000_000,
                                                       (c.issue + w.cfg.refreshTTL) / 1_000_000_000, None, None)])
  {
    RefreshLookupIs(w.t.refresh, i);
    if Refreshable(w, s) { RefreshShape(w, s); }
  }

  // ----- a request for the Gateway, and DELETE /v1/sessions/current

  /** Every session of the device is revoked at this second, and nothing else changes. */
  ghost predicate RevokedAt(t: Tables, t1: Tables, device: Id, second: Seconds) {
    && t1.auths == t.auths && t1.devices == t.devices
    && t1.refresh.Keys == t.refresh.Keys && t1.access.Keys == t.access.Keys
    && (forall i :: i in t.refresh ==>
          t1.refresh[i] == if t.refresh[i].device == device then t.refresh[i].(revokedAt := Some(second))
                           else t.refresh[i])
    && (forall i :: i in t.access ==>
          t1.access[i] == if t.access[i].device == device then t.access[i].(revokedAt := Some(second))
                          else t.access[i])
  }

  lemma UnknownAccessTokenDecides(w: World, s: Step)
    requires s.ProxyStep? || s.RevokeStep?
    requires ReadAccess in s.faults
             || forall i :: i in w.t.access ==> w.t.access[i].hash != w.cfg.sha(w.cfg.secret + s.token)
    ensures Next(w, s).t == w.t
    ensures Respond(w, s) == if ReadAccess in s.faults then ServerError
                             else if s.ProxyStep? then Unauthorized
                             else NoContent
  {
  }

  /** Every case of a proxied request with a stored token. */
  lemma ProxiedRequestDecides(w: World, s: Step, i: Id)
    requires Inv(w) && s.ProxyStep? && ReadAccess !in s.faults
    requires i in w.t.access && w.t.access[i].hash == w.cfg.sha(w.cfg.secret + s.token)
    ensures var row, c, t, t1 := w.t.access[i], s.proxyClock, w.t, Next(w, s).t;
            var device := t.devices[row.device];
            if row.revokedAt.Some? || c.check > row.expiresAt * 1_000_000_000 then
              Respond(w, s) == Unauthorized && t1 == t
            else if ReadDevice in s.faults then Respond(w, s) == ServerError && t1 == t
            else if device.revokedAt.Some? then Respond(w, s) == Unauthorized && t1 == t
            else if !Emails.Lists(w.cfg.lower, w.cfg.allowList, device.email) then
              && Respond(w, s) == Unauthorized
              && if Revocation in s.faults then t1 == t else RevokedAt(t, t1, row.device, c.write / 1_000_000_000)
            else
              && Respond(w, s) == Forwarded(row.device, device.email)
              && t1 == if WriteLastSeen in s.faults then t
                       else t.(devices := t.devices[row.device := device.(lastSeenAt := c.write / 1_000_000_000)])
  {
    AccessLookupIs(w.t.access, i);
    ProxyShape(w, s);
    Emails.AllowListMeansListed(w.cfg.lower, w.cfg.allowList, w.t.devices[w.t.access[i].device].email);
  }

  /** A device whose e-mail is the second of the list is forwarded, whatever blanks stand around it. */
  lemma SecondListedEmailIsForwarded(w: World, s: Step, i: Id, e: string, p: string, f: string, q: string)
    requires Inv(w) && s.ProxyStep? && s.faults == {} && i in w.t.access
    requires w.t.access[i].hash == w.cfg.sha(w.cfg.secret + s.token) && w.t.access[i].revokedAt.None?
    requires s.proxyClock.check <= w.t.access[i].expiresAt * 1_000_000_000
    requires w.t.devices[w.t.access[i].device].revokedAt.None? && w.t.devices[w.t.access[i].device].email == f
    requires f != "" && ',' !in f && f[0] !in Emails.BLANKS && f[|f| - 1] !in Emails.BLANKS
    requires forall c :: c in p || c in q ==> c in {' ', '\t', '\n', '\U{000B}', '\U{000C}', '\r'}
    requires w.cfg.allowList == e + "," + p + f + q
    ensures Respond(w, s) == Forwarded(w.t.access[i].device, f)
  {
    Emails.SecondFieldIsListed(w.cfg.lower, e, p, f, q);
    Emails.AllowListMeansListed(w.cfg.lower, w.cfg.allowList, f);
    ProxiedRequestDecides(w, s, i);
  }

  lemma DeleteDecides(w: World, s: Step, i: Id)
    requires Inv(w) && s.RevokeStep? && ReadAccess !in s.faults
    requires i in w.t.access && w.t.access[i].hash == w.cfg.sha(w.cfg.secret + s.token)
    ensures if Revocation in s.faults then Respond(w, s) == ServerError && Next(w, s).t == w.t
            else Respond(w, s) == NoContent
                 && RevokedAt(w.t, Next(w, s).t, w.t.access[i].device, s.now / 1_000_000_000)
  {
    AccessLookupIs(w.t.access, i);
    RevokeShape(w, s);
    RevokeAllEffect(w.t, w.t.access[i].device, Unix(s.now));
  }

  // ----- cleanup and restart

  lemma CleanupDecides(w: World, s: Step)
    requires s.CleanupStep?
    ensures Respond(w, s) == Silent && Next(w, s).t.devices == w.t.devices
    ensures var t, t1, second := w.t, Next(w, s).t, s.now / 1_000_000_000;
            && (forall i :: i in t1.auths <==>
                  && i in t.auths
                  && (s.deletes >= 1 ==> t.auths[i].expiresAt >= second || t.auths[i].status == Approved))
            && (forall i :: i in t1.refresh <==>
                  i in t.refresh && (s.deletes >= 2 ==> t.refresh[i].expiresAt >= second))
            && (forall i :: i in t1.access <==> i in t.access && (s.deletes >= 3 ==> t.access[i].expiresAt >= second))
            && (forall i :: i in t1.auths ==> t1.auths[i] == t.auths[i])
            && (forall i :: i in t1.refresh ==> t1.refresh[i] == t.refresh[i])
            && (forall i :: i in t1.access ==> t1.access[i] == t.access[i])
  {
  }

  /** A transaction that a cleanup has taken is unknown to the next poll. */
  lemma CleanedTransactionIsNotFound(w: World, c: Step, s: Step)
    requires c.CleanupStep? && c.deletes >= 1 && s.PollStep? && ReadAuth !in s.faults && s.id in w.t.auths
    requires w.t.auths[s.id].expiresAt < c.now / 1_000_000_000 && w.t.auths[s.id].status != Approved
    ensures Respond(Next(w, c), s) == NotFound
  {
    CleanupDecides(w, c);
    ClosedTransactionDecides(Next(w, c), s);
  }

  lemma RestartDecides(w: World, s: Step)
    requires s.RestartStep?
    ensures Respond(w, s) == Silent && Next(w, s) == w.(cfg := s.config)
  {
  }

  // ----- what a step asks of the clock and of the generator

  lemma StepsArePossibleWhen(w: World, s: Step)
    ensures Enabled(w, s) <==>
              match s
              case CreateStep(id, _, _, now, _) => w.clock <= now && id !in w.ids
              case PollStep(_, _, m, c, _) =>
                && w.clock <= c.check <= c.device <= c.issue <= c.status <= c.consumed
                && m.deviceId !in w.ids && m.accessId !in w.ids && m.refreshId !in w.ids
                && w.cfg.sha(w.cfg.secret + m.accessToken) !in w.hashes
                && w.cfg.sha(w.cfg.secret + m.refreshToken) !in w.hashes
              case RefreshStep(_, m, c, _) =>
                && w.clock <= c.check <= c.issue <= c.rotate && m.accessId !in w.ids && m.refreshId !in w.ids
                && w.cfg.sha(w.cfg.secret + m.accessToken) !in w.hashes
                && w.cfg.sha(w.cfg.secret + m.refreshToken) !in w.hashes
              case RevokeStep(_, now, _) => w.clock <= now
              case ProxyStep(_, c, _) => w.clock <= c.check <= c.write
              case CleanupStep(now, _) => w.clock <= now
              case RestartStep(_) => true
  {
  }

  /** The clock moves to the last reading, the configuration by restarts alone, and what was drawn is remembered. */
  lemma StepsCarry(w: World, s: Step)
    ensures !s.RestartStep? ==> Next(w, s).cfg == w.cfg
    ensures Next(w, s).clock == match s
                                case CreateStep(_, _, _, now, _) => now
                                case PollStep(_, _, _, c, _) => c.consumed
                                case RefreshStep(_, _, c, _) => c.rotate
                                case RevokeStep(_, now, _) => now
                                case ProxyStep(_, c, _) => c.write
                                case CleanupStep(now, _) => now
                                case RestartStep(_) => w.clock
    ensures Next(w, s).ids == match s
                              case CreateStep(id, _, _, _, _) => w.ids + {id}
                              case PollStep(_, _, m, _, _) => w.ids + {m.deviceId, m.accessId, m.refreshId}
                              case RefreshStep(_, m, _, _) => w.ids + {m.accessId, m.refreshId}
                              case _ => w.ids
  {
  }

  // ----- the server secret

  /**
   * A token counts under the secret it was made with. When the digest is injective, the tokens
   * of sessions stored under one secret are refused under another of the same length.
   */
  lemma TokensOfAnotherSecretAreRefused(w: World, s: Step, secret: string)
    requires forall a, b :: w.cfg.sha(a) == w.cfg.sha(b) ==> a == b
    requires |secret| == |w.cfg.secret| && secret != w.cfg.secret
    requires forall i :: i in w.t.refresh ==> exists token :: w.t.refresh[i].hash == w.cfg.sha(secret + token)
    requires forall i :: i in w.t.access ==> exists token :: w.t.access[i].hash == w.cfg.sha(secret + token)
    requires s.RefreshStep? || s.ProxyStep?
    ensures !Respond(w, s).RefreshedWith? && !Respond(w, s).Forwarded?
    ensures s.faults == {} && s.token != "" ==> Respond(w, s) == Unauthorized
  {
    forall token
      ensures w.cfg.sha(secret + token) != w.cfg.sha(w.cfg.secret + s.token)
    {
      assert (secret + token)[..|secret|] == secret;
      assert (w.cfg.secret + s.token)[..|secret|] == w.cfg.secret;
    }
    if s.RefreshStep? { UnknownRefreshTokenDecides(w, s); } else { UnknownAccessTokenDecides(w, s); }
  }
}
