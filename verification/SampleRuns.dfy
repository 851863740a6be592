/** Runs from an empty file in which cleanup is seen: it parts a chain, and it hides a DELETE. */
module SampleRuns {
  import opened Base
  import opened Tables
  import opened Broker
  import opened Invariants
  import opened ChainLaws
  import opened CleanupLaws
  import opened MissedDeletes
  import opened Samples

  const LONG := ConfigWith(10_000_000_000, 100_000_000_000)
  const SHORT := ConfigWith(10_000_000_000, 10_000_000_000)

  /** The row the pairing stores: it expires after a hundred seconds. */
  const FIRST_ROW := RefreshRow(2, 2, None, 0, 100, None, None)

  /** Its access row expires after ten. */
  const ACCESS_ROW := AccessRow(2, 1, 0, 10, None)

  ghost predicate StepsTo(w: World, s: Step, w1: World) {
    Enabled(w, s) && w1 == Next(w, s)
  }

  lemma Created() returns (w: World, s: Step, w1: World)
    ensures s.CreateStep? && Initial(w) && Inv(w) && StepsTo(w, s, w1) && Inv(w1)
    ensures w1.t == EMPTY.(auths := map[1 := AuthRow(Pending, None, None, 5, 900)])
    ensures w1.cfg == LONG && w1.clock == 0 && w1.ids == {1} && w1.hashes == {}
  {
    w, s := World(EMPTY, LONG, 0, {}, {}), CreateStep(1, 5, 900, 0, {});
    w1 := Next(w, s);
    NextKeepsInv(w, s);
  }

  lemma Digests(cfg: Config)
    requires cfg.secret == "" && cfg.sha == SHA
    ensures HashSecret(cfg, "1") == 1 && HashSecret(cfg, "22") == 2
    ensures HashSecret(cfg, "333") == 3 && HashSecret(cfg, "4444") == 4
  {
    assert forall data :: "" + data == data;
  }

  const PAIR := PollStep(1, ANSWER, Mint(2, 3, "1", 4, "22"), PollClock(0, 0, 0, 0, 0), {})

  lemma PairTables(w: World)
    requires w.t == EMPTY.(auths := map[1 := AuthRow(Pending, None, None, 5, 900)]) && w.cfg == LONG
    ensures var t := Next(w, PAIR).t;
            && t.refresh == map[4 := FIRST_ROW] && t.access == map[3 := ACCESS_ROW]
            && t.devices.Keys == {2} && t.devices[2].revokedAt.None?
  {
    NamedOnTheList(10_000_000_000, 100_000_000_000);
    Digests(LONG);
    PollApproves(w, PAIR);
    ApproveEffect(w, PAIR);
  }

  lemma PairingStep(w: World) returns (s: Step, w1: World)
    requires Inv(w) && w.t == EMPTY.(auths := map[1 := AuthRow(Pending, None, None, 5, 900)])
    requires w.cfg == LONG && w.clock == 0 && w.ids == {1} && w.hashes == {}
    ensures s.PollStep? && StepsTo(w, s, w1) && Inv(w1)
    ensures w1.t.refresh == map[4 := FIRST_ROW] && w1.t.access == map[3 := ACCESS_ROW] && w1.t.devices.Keys == {2}
    ensures w1.t.devices[2].revokedAt.None?
    ensures w1.cfg == LONG && w1.clock == 0 && w1.ids == {1, 2, 3, 4} && w1.hashes == {1, 2}
  {
    s, w1 := PAIR, Next(w, PAIR);
    Digests(LONG);
    NextKeepsInv(w, PAIR);
    PairTables(w);
  }

  lemma Restarted(w: World) returns (s: Step, w1: World)
    requires Inv(w) && w.cfg == LONG
    ensures s.RestartStep? && StepsTo(w, s, w1) && Inv(w1) && w1 == w.(cfg := SHORT)
  {
    s := RestartStep(SHORT);
    w1 := Next(w, s);
    NextKeepsInv(w, s);
  }

  lemma Refreshed(w: World) returns (s: Step, w1: World)
    requires Inv(w) && w.t.refresh == map[4 := FIRST_ROW] && w.t.devices.Keys == {2} && w.t.devices[2].revokedAt.None?
    requires w.cfg == SHORT && w.clock == 0 && w.ids == {1, 2, 3, 4} && w.hashes == {1, 2}
    ensures StepsTo(w, s, w1) && OutOfOrder(w, s, 2) && s.mint.refreshId == 6 && w1.clock == 0
    ensures FindRefresh(w.t.refresh, HashSecret(w.cfg, s.token)) == Some(4)
    ensures Unix(s.refreshClock.issue + w.cfg.refreshTTL) == 10
    ensures 6 in w1.t.refresh && w1.t.refresh[6].device == 2
  {
    s := RefreshStep("22", Mint(0, 5, "333", 6, "4444"), RefreshClock(0, 0, 0), {});
    w1 := Next(w, s);
    Digests(SHORT);
    RefreshLookupIs(w.t.refresh, 4);
    assert Refreshable(w, s);
    RefreshShape(w, s);
  }

  lemma CleanedUp(w: World, r: Step, w1: World) returns (s: Step, w2: World)
    requires Inv(w) && OutOfOrder(w, r, 2) && StepsTo(w, r, w1) && w1.clock == 0 && r.mint.refreshId == 6
    requires FindRefresh(w.t.refresh, HashSecret(w.cfg, r.token)) == Some(4) && w.t.refresh == map[4 := FIRST_ROW]
    requires Unix(r.refreshClock.issue + w.cfg.refreshTTL) == 10
    ensures s.CleanupStep? && StepsTo(w1, s, w2) && 4 in w2.t.refresh && 6 !in w2.t.refresh
  {
    s := CleanupStep(20_000_000_000, 3);
    w2 := Next(w1, s);
    WhenCleanupTakesTheChild(w, r, s, 2);
  }

  lemma RunGrows(ws: seq<World>, steps: seq<Step>, s: Step, w: World)
    requires IsRun(ws, steps) && StepsTo(ws[|steps|], s, w)
    ensures IsRun(ws + [w], steps + [s])
  {
    var ws1, steps1 := ws + [w], steps + [s];
    forall n | 0 <= n < |steps1|
      ensures StepAt(ws1, steps1, n)
    {
      if n < |steps| { assert StepAt(ws, steps, n); }
    }
  }

  lemma TwoSteps(w0: World, s0: Step, w1: World, s1: Step, w2: World)
    requires StepsTo(w0, s0, w1) && StepsTo(w1, s1, w2)
    ensures IsRun([w0, w1, w2], [s0, s1])
  {
    RunGrows([w0], [], s0, w1);
    assert [w0] + [w1] == [w0, w1] && [] + [s0] == [s0];
    RunGrows([w0, w1], [s0], s1, w2);
    assert [w0, w1] + [w2] == [w0, w1, w2] && [s0] + [s1] == [s0, s1];
  }

  lemma PairedRun() returns (ws: seq<World>, steps: seq<Step>)
    ensures |steps| == 2 && IsRun(ws, steps) && Initial(ws[0]) && Inv(ws[2]) && SkipsCleanup(ws, steps)
    ensures ws[2].t.refresh == map[4 := FIRST_ROW] && ws[2].t.access == map[3 := ACCESS_ROW]
    ensures ws[2].t.devices.Keys == {2}
    ensures ws[2].t.devices[2].revokedAt.None?
    ensures ws[2].cfg == LONG && ws[2].clock == 0 && ws[2].ids == {1, 2, 3, 4} && ws[2].hashes == {1, 2}
  {
    var w0, s0, w1 := Created();
    var s1, w2 := PairingStep(w1);
    TwoSteps(w0, s0, w1, s1, w2);
    ws, steps := [w0, w1, w2], [s0, s1];
    NothingToSkip(ws, steps);
  }

  lemma NothingToSkip(ws: seq<World>, steps: seq<Step>)
    requires IsRun(ws, steps) && forall n :: 0 <= n < |steps| ==> !steps[n].CleanupStep?
    ensures SkipsCleanup(ws, steps)
  {
    forall n | 0 <= n < |steps|
      ensures SkippingAt(ws, steps, n)
    {
      assert StepAt(ws, steps, n);
    }
  }

  lemma ShortenedRun() returns (ws: seq<World>, steps: seq<Step>)
    ensures |steps| == 3 && IsRun(ws, steps) && Initial(ws[0]) && steps[2].RestartStep? && Inv(ws[3])
    ensures ws[3].t.refresh == map[4 := FIRST_ROW] && ws[3].t.devices.Keys == {2} && ws[3].t.devices[2].revokedAt.None?
    ensures ws[3].cfg == SHORT && ws[3].clock == 0 && ws[3].ids == {1, 2, 3, 4} && ws[3].hashes == {1, 2}
  {
    ws, steps := PairedRun();
    var s, w := Restarted(ws[2]);
    RunGrows(ws, steps, s, w);
    ws, steps := ws + [w], steps + [s];
  }

  lemma RefreshedAndCleaned(w: World) returns (r: Step, w1: World, s: Step, w2: World)
    requires Inv(w) && w.t.refresh == map[4 := FIRST_ROW] && w.t.devices.Keys == {2} && w.t.devices[2].revokedAt.None?
    requires w.cfg == SHORT && w.clock == 0 && w.ids == {1, 2, 3, 4} && w.hashes == {1, 2}
    ensures StepsTo(w, r, w1) && StepsTo(w1, s, w2) && OutOfOrder(w, r, 2) && s.CleanupStep?
    ensures 6 in w1.t.refresh && w1.t.refresh[6].device == 2 && 4 in w2.t.refresh && 6 !in w2.t.refresh
  {
    r, w1 := Refreshed(w);
    s, w2 := CleanedUp(w, r, w1);
  }

  /**
   * Pair, restart with a shorter lifetime, refresh, clean up: a run from an empty file after
   * which the first row of the phone is stored and the row that replaced it is not.
   */
  lemma AShorterLifetimeLosesTheChild() returns (ws: seq<World>, steps: seq<Step>)
    ensures |steps| == 5 && IsRun(ws, steps) && Initial(ws[0])
    ensures steps[2].RestartStep? && OutOfOrder(ws[3], steps[3], 2) && steps[4].CleanupStep?
    ensures 6 in ws[4].t.refresh && ws[4].t.refresh[6].device == 2
    ensures 4 in ws[5].t.refresh && 6 !in ws[5].t.refresh
  {
    ws, steps := ShortenedRun();
    var r, w1, s, w2 := RefreshedAndCleaned(ws[3]);
    RunGrows(ws, steps, r, w1);
    RunGrows(ws + [w1], steps + [r], s, w2);
    ws, steps := ws + [w1] + [w2], steps + [r] + [s];
  }

  // ----- a DELETE after a cleanup

  /** A cleanup at twenty seconds takes the access row and leaves the refresh row. */
  lemma AccessCleaned(w: World) returns (c: Step, w1: World)
    requires Inv(w) && w.clock == 0 && w.t.refresh == map[4 := FIRST_ROW] && w.t.access == map[3 := ACCESS_ROW]
    ensures c.CleanupStep? && StepsTo(w, c, w1) && Inv(w1)
    ensures w1 == w.(t := w1.t, clock := 20_000_000_000) && w1.t.devices == w.t.devices
    ensures w1.t.refresh == map[4 := FIRST_ROW] && w1.t.access == map[]
  {
    c := CleanupStep(20_000_000_000, 3);
    w1 := Next(w, c);
    NextKeepsInv(w, c);
  }

  /** The DELETE of the first access token does not find its row after the cleanup, and does before. */
  lemma DeleteMissed(w: World, c: Step, w1: World) returns (d: Step, w2: World, u2: World)
    requires Inv(w) && Inv(w1) && c.CleanupStep? && StepsTo(w, c, w1) && w.cfg == LONG && w.clock == 0
    requires w1 == w.(t := w1.t, clock := 20_000_000_000) && w1.t.devices == w.t.devices
    requires w.t.access == map[3 := ACCESS_ROW] && w1.t.access == map[]
    ensures d.RevokeStep? && StepsTo(w1, d, w2) && u2 == Next(w, d)
    ensures Pre(w1, w, {}, d) && Misses(w1, w, d) && MissedDevice(w1, w, d) == 2
    ensures w2 == w1.(clock := 20_000_000_000)
  {
    d := RevokeStep("1", 20_000_000_000, {});
    w2, u2 := Next(w1, d), Next(w, d);
    Digests(LONG);
    StartsTrimmed(w);
    CleanupTrims(w, w, {}, c);
    AccessLookupIs(w.t.access, 3);
    RevokeShape(w1, d);
  }

  lemma RefreshGranted(w: World) returns (g: Step, w1: World)
    requires Inv(w) && w.t.refresh == map[4 := FIRST_ROW] && w.t.devices.Keys == {2} && w.t.devices[2].revokedAt.None?
    requires w.cfg == LONG && w.clock == 20_000_000_000 && w.ids == {1, 2, 3, 4} && w.hashes == {1, 2}
    ensures g.RefreshStep? && StepsTo(w, g, w1) && Granted(Respond(w, g)).Some? && ActsFor(w, g, {2})
  {
    var at := 20_000_000_000;
    g := RefreshStep("22", Mint(0, 5, "333", 6, "4444"), RefreshClock(at, at, at), {});
    w1 := Next(w, g);
    Digests(LONG);
    RefreshLookupIs(w.t.refresh, 4);
    assert Refreshable(w, g);
    RefreshShape(w, g);
  }

  ghost predicate Skips(u: World, s: Step, u1: World) {
    u1 == if s.CleanupStep? then u else Next(u, s)
  }

  lemma ThreeSkips(us: seq<World>, steps: seq<Step>, u1: World, c: Step, u2: World, d: Step, u3: World, g: Step,
                   u4: World)
    requires SkipsCleanup(us, steps) && us[|steps|] == u1 && Skips(u1, c, u2) && Skips(u2, d, u3) && Skips(u3, g, u4)
    ensures SkipsCleanup(us + [u2, u3, u4], steps + [c, d, g])
  {
    var us1, steps1 := us + [u2, u3, u4], steps + [c, d, g];
    forall n | 0 <= n < |steps1|
      ensures SkippingAt(us1, steps1, n)
    {
      if n < |steps| {
        assert SkippingAt(us, steps, n);
      } else {
        assert us1[n] == (if n == |steps| then u1 else if n == |steps| + 1 then u2 else u3);
      }
    }
  }

  lemma ThreeMore(ws: seq<World>, steps: seq<Step>, c: Step, w1: World, d: Step, w2: World, g: Step, w3: World)
    requires IsRun(ws, steps) && StepsTo(ws[|steps|], c, w1) && StepsTo(w1, d, w2) && StepsTo(w2, g, w3)
    ensures IsRun(ws + [w1, w2, w3], steps + [c, d, g])
  {
    RunGrows(ws, steps, c, w1);
    RunGrows(ws + [w1], steps + [c], d, w2);
    RunGrows(ws + [w1] + [w2], steps + [c] + [d], g, w3);
    assert ws + [w1] + [w2] + [w3] == ws + [w1, w2, w3] && steps + [c] + [d] + [g] == steps + [c, d, g];
  }

  /** The four worlds and three steps after a pairing at `w`, with and without the cleanup. */
  lemma MissedTail(w: World) returns (c: Step, w1: World, d: Step, w2: World, g: Step, w3: World, u2: World, u3: World)
    requires Inv(w) && w.t.refresh == map[4 := FIRST_ROW] && w.t.access == map[3 := ACCESS_ROW]
    requires w.t.devices.Keys == {2}
    requires w.t.devices[2].revokedAt.None? && w.cfg == LONG && w.clock == 0 && w.ids == {1, 2, 3, 4}
    requires w.hashes == {1, 2}
    ensures StepsTo(w, c, w1) && StepsTo(w1, d, w2) && StepsTo(w2, g, w3)
    ensures Skips(w, c, w) && Skips(w, d, u2) && Skips(u2, g, u3)
    ensures c.CleanupStep? && d.RevokeStep? && g.RefreshStep?
    ensures Granted(Respond(w2, g)).Some? && Granted(Respond(u2, g)) != Granted(Respond(w2, g))
  {
    c, w1 := AccessCleaned(w);
    d, w2, u2 := DeleteMissed(w, c, w1);
    g, w3 := RefreshGranted(w2);
    u3 := Next(u2, g);
    WhenAMissedDeleteChangesAGrant(w1, w, {}, d, g);
  }

  /**
   * Pair, clean up, delete, refresh: a run from an empty file whose last step is granted, and
   * is refused in the run without its cleanup.
   */
  lemma ACleanupHidesADelete() returns (ws: seq<World>, us: seq<World>, steps: seq<Step>)
    ensures |steps| == 5 && IsRun(ws, steps) && SkipsCleanup(us, steps) && Initial(ws[0]) && us[0] == ws[0]
    ensures steps[3].RevokeStep? && steps[4].RefreshStep?
    ensures Granted(ReplyAt(ws, steps, 4)).Some? && Granted(ReplyAt(us, steps, 4)) != Granted(ReplyAt(ws, steps, 4))
  {
    ws, steps := PairedRun();
    var w := ws[2];
    var c, w1, d, w2, g, w3, u2, u3 := MissedTail(w);
    ThreeMore(ws, steps, c, w1, d, w2, g, w3);
    ThreeSkips(ws, steps, w, c, w, d, u2, g, u3);
    ws, us, steps := ws + [w1, w2, w3], ws + [w, u2, u3], steps + [c, d, g];
  }
}
