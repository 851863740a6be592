/** The run that is left when the cleanups are erased, as a run in its own right. */
module CleanupRuns {
  import opened Base
  import opened Broker
  import opened Invariants
  import opened CleanupLaws

  /** The first `n` steps without the cleanups. */
  function Erased(steps: seq<Step>, n: nat): (kept: seq<Step>)
    requires n <= |steps|
  {
    if n == 0 then []
    else if steps[n - 1].CleanupStep? then Erased(steps, n - 1)
    else Erased(steps, n - 1) + [steps[n - 1]]
  }

  ghost function ErasedWorlds(us: seq<World>, steps: seq<Step>, n: nat): (vs: seq<World>)
    requires n <= |steps| && |us| == |steps| + 1
    ensures |vs| == |Erased(steps, n)| + 1
  {
    if n == 0 then [us[0]]
    else if steps[n - 1].CleanupStep? then ErasedWorlds(us, steps, n - 1)
    else ErasedWorlds(us, steps, n - 1) + [us[n]]
  }

  /** What the first `n` steps grant, cleanups aside. */
  ghost function Grants(ws: seq<World>, steps: seq<Step>, n: nat): seq<Option<Reply>>
    requires n <= |steps| && |ws| == |steps| + 1
  {
    if n == 0 then []
    else if steps[n - 1].CleanupStep? then Grants(ws, steps, n - 1)
    else Grants(ws, steps, n - 1) + [Granted(ReplyAt(ws, steps, n - 1))]
  }

  lemma {:induction false} GrantsOfPrefix(vs: seq<World>, es: seq<Step>, v: World, e: Step, n: nat)
    requires |vs| == |es| + 1 && n <= |es|
    ensures Grants(vs + [v], es + [e], n) == Grants(vs, es, n)
  {
    if n > 0 {
      GrantsOfPrefix(vs, es, v, e, n - 1);
    }
  }

  lemma RunExtends(vs: seq<World>, es: seq<Step>, e: Step)
    requires IsRun(vs, es) && Enabled(vs[|es|], e)
    ensures IsRun(vs + [Next(vs[|es|], e)], es + [e])
  {
    var vs1, es1 := vs + [Next(vs[|es|], e)], es + [e];
    forall n | 0 <= n < |es1|
      ensures StepAt(vs1, es1, n)
    {
      assert n < |es| ==> StepAt(vs, es, n);
    }
  }

  /** One more step, on top of a run and its grants so far. */
  lemma GrantsExtend(vs: seq<World>, es: seq<Step>, e: Step, v: World)
    requires IsRun(vs, es) && !e.CleanupStep?
    requires Enabled(vs[|es|], e) && v == Next(vs[|es|], e)
    ensures IsRun(vs + [v], es + [e])
    ensures Grants(vs + [v], es + [e], |es| + 1) == Grants(vs, es, |es|) + [Granted(Respond(vs[|es|], e))]
  {
    RunExtends(vs, es, e);
    GrantsOfPrefix(vs, es, v, e, |es|);
  }

  /** Skipping each cleanup where it stands is the same as a run that has none. */
  lemma {:induction false} ErasedIsARun(us: seq<World>, steps: seq<Step>, n: nat)
    requires SkipsCleanup(us, steps) && n <= |steps|
    requires forall k :: 0 <= k < n && !steps[k].CleanupStep? ==> Enabled(us[k], steps[k])
    ensures var vs, es := ErasedWorlds(us, steps, n), Erased(steps, n);
            IsRun(vs, es) && vs[0] == us[0] && vs[|es|] == us[n]
    ensures Grants(ErasedWorlds(us, steps, n), Erased(steps, n), |Erased(steps, n)|) == Grants(us, steps, n)
  {
    if n > 0 {
      ErasedIsARun(us, steps, n - 1);
      assert SkippingAt(us, steps, n - 1);
      if !steps[n - 1].CleanupStep? {
        GrantsExtend(ErasedWorlds(us, steps, n - 1), Erased(steps, n - 1), steps[n - 1], us[n]);
      }
    }
  }

  lemma {:induction false} ErasedHasNoCleanup(steps: seq<Step>, n: nat)
    requires n <= |steps|
    ensures forall e :: e in Erased(steps, n) ==> !e.CleanupStep?
  {
    if n > 0 {
      ErasedHasNoCleanup(steps, n - 1);
    }
  }

  /** The grants are the same, step for step, as long as no step observes a cleanup. */
  lemma {:induction false} SameGrants(ws: seq<World>, us: seq<World>, steps: seq<Step>, n: nat)
    requires IsRun(ws, steps) && SkipsCleanup(us, steps) && us[0] == ws[0] && Inv(ws[0]) && n <= |steps|
    ensures forall k :: 0 <= k < n && !steps[k].CleanupStep? ==> Enabled(us[k], steps[k])
    ensures |Grants(us, steps, n)| == |Grants(ws, steps, n)|
    ensures Grants(us, steps, n) == Grants(ws, steps, n) <==> forall k :: 0 <= k < n ==> !Observed(ws, us, steps, k)
  {
    if n > 0 {
      SameGrants(ws, us, steps, n - 1);
      if steps[n - 1].CleanupStep? {
        assert !Observed(ws, us, steps, n - 1);
      } else {
        WhenCleanupIsObserved(ws, us, steps, n - 1);
        AppendedAreEqual(Grants(us, steps, n - 1), Granted(ReplyAt(us, steps, n - 1)),
                         Grants(ws, steps, n - 1), Granted(ReplyAt(ws, steps, n - 1)));
      }
    }
  }

  lemma AppendedAreEqual<T>(a: seq<T>, x: T, b: seq<T>, y: T)
    requires |a| == |b|
    ensures a + [x] == b + [y] <==> a == b && x == y
  {
    if a + [x] == b + [y] {
      assert a == (a + [x])[..|a|] == (b + [y])[..|b|] == b;
      assert (a + [x])[|a|] == (b + [y])[|b|];
    }
  }

  /**
   * Erase every cleanup from any run: what is left is a run from the same world, and its steps
   * grant in order exactly what they granted before if and only if no step of the run was
   * granted anything on a token of a device that an earlier DELETE had missed.
   */
  lemma WhenErasingCleanupsChangesNoGrant(ws: seq<World>, us: seq<World>, steps: seq<Step>)
    requires IsRun(ws, steps) && Inv(ws[0])
    requires SkipsCleanup(us, steps) && us[0] == ws[0]
    ensures var vs, es := ErasedWorlds(us, steps, |steps|), Erased(steps, |steps|);
            && IsRun(vs, es) && vs[0] == ws[0]
            && (forall e :: e in es ==> !e.CleanupStep?)
            && (Grants(vs, es, |es|) == Grants(ws, steps, |steps|) <==>
                forall k :: 0 <= k < |steps| ==> !Observed(ws, us, steps, k))
  {
    SameGrants(ws, us, steps, |steps|);
    ErasedIsARun(us, steps, |steps|);
    ErasedHasNoCleanup(steps, |steps|);
  }

  /** So erasing the cleanups of a run changes no grant if no DELETE of it was missed. */
  lemma ErasingCleanupsChangesNoGrant(ws: seq<World>, us: seq<World>, steps: seq<Step>)
    requires IsRun(ws, steps) && Inv(ws[0])
    requires SkipsCleanup(us, steps) && us[0] == ws[0]
    requires forall k :: 0 <= k < |steps| ==> !Misses(ws[k], us[k], steps[k])
    ensures var vs, es := ErasedWorlds(us, steps, |steps|), Erased(steps, |steps|);
            IsRun(vs, es) && vs[0] == ws[0] && Grants(vs, es, |es|) == Grants(ws, steps, |steps|)
  {
    WhenErasingCleanupsChangesNoGrant(ws, us, steps);
    forall k | 0 <= k < |steps|
      ensures !Observed(ws, us, steps, k)
    {
      assert MissedBefore(ws, us, steps, k) == {};
    }
  }
}
