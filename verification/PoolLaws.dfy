/** What the statement-level pool inherits from the call-level interleavings. */
module PoolLaws {
  import opened Base
  import opened Tables
  import opened Jobs
  import opened Forest
  import Pool
  import L = ForestLaws

  /** The pool between calls shows exactly this system. */
  ghost predicate Shows(p: Pool.State, s: System) {
    Pool.Between(p) == (s.t, s.jobs)
  }

  lemma MoveIsShown(p: Pool.State, k: nat, fails: bool, s: System) returns (turn: Option<L.Turn>)
    requires Pool.Disciplined(p) && Pool.CanMove(p, k) && Shows(p, s)
    ensures turn.None? ==> Shows(Pool.Move(p, k, fails), s)
    ensures turn.Some? ==>
              L.CanCall(s, turn.value.job) && Shows(Pool.Move(p, k, fails), CallStep(s, turn.value.job, turn.value.ok))
  {
    Pool.EveryMoveIsACallOrNothing(p, k, fails);
    if Pool.Between(Pool.Move(p, k, fails)) == Pool.Between(p) {
      turn := None;
    } else {
      var ok :| Pool.CallHappens(Pool.Between(p), Pool.Between(Pool.Move(p, k, fails)), k, ok);
      turn := Some(L.Turn(k, ok));
    }
  }

  /** `at[m]` is how many whole calls the first `m` moves amount to. */
  ghost predicate Tracks(ps: seq<Pool.State>, n: nat, ss: seq<System>, at: seq<nat>) {
    && |at| == n + 1 && n < |ps| && at[0] == 0
    && (forall m :: 0 <= m < n ==> at[m] <= at[m + 1] <= at[m] + 1)
    && (forall m :: 0 <= m <= n ==> at[m] < |ss| && Shows(ps[m], ss[at[m]]))
  }

  lemma TracksNext(ps: seq<Pool.State>, n: nat, ss: seq<System>, at: seq<nat>, ss1: seq<System>, next: nat)
    requires Tracks(ps, n, ss, at) && n + 1 < |ps| && ss <= ss1
    requires at[n] <= next <= at[n] + 1 && next < |ss1| && Shows(ps[n + 1], ss1[next])
    ensures Tracks(ps, n + 1, ss1, at + [next])
  {
    var at1 := at + [next];
    assert forall m :: 0 <= m <= n ==> at1[m] == at[m] && ss1[at[m]] == ss[at[m]];
  }

  /**
   * Every schedule of statements on the single connection runs, between calls, through the
   * tables of one interleaving in which each call is one indivisible step: move by move, the
   * systems shown are those of the interleaving, in its order, none left out.
   */
  lemma {:induction false} SchedulesRefineInterleavings(ps: seq<Pool.State>, turns: seq<Pool.Slot>, n: nat, s: System)
    returns (ss: seq<System>, calls: seq<L.Turn>, at: seq<nat>)
    requires Pool.IsSchedule(ps, turns) && Pool.Disciplined(ps[0]) && Shows(ps[0], s) && n < |ps|
    ensures L.IsInterleaving(ss, calls) && ss[0] == s
    ensures Tracks(ps, n, ss, at) && at[n] == |calls|
    decreases n
  {
    if n == 0 {
      ss, calls, at := [s], [], [0];
    } else {
      ss, calls, at := SchedulesRefineInterleavings(ps, turns, n - 1, s);
      Pool.SchedulesShorten(ps, turns, n - 1);
      assert Pool.MoveAt(ps, turns, n - 1);
      var turn := MoveIsShown(ps[n - 1], turns[n - 1].thread, turns[n - 1].fails, ss[|calls|]);
      var ss0, at0 := ss, at;
      if turn.Some? {
        ss, calls := CallAppended(ss, calls, turn.value);
      }
      TracksNext(ps, n - 1, ss0, at0, ss, |calls|);
      at := at0 + [|calls|];
    }
  }

  lemma CallAppended(ss: seq<System>, calls: seq<L.Turn>, turn: L.Turn) returns (ss1: seq<System>, calls1: seq<L.Turn>)
    requires L.IsInterleaving(ss, calls) && L.CanCall(ss[|calls|], turn.job)
    ensures L.IsInterleaving(ss1, calls1) && ss <= ss1 && |calls1| == |calls| + 1
    ensures ss1[|calls1|] == CallStep(ss[|calls|], turn.job, turn.ok)
  {
    ss1, calls1 := ss + [CallStep(ss[|calls|], turn.job, turn.ok)], calls + [turn];
    forall n | 0 <= n < |calls1|
      ensures L.CallAt(ss1, calls1, n)
    {
      if n < |calls| { assert L.CallAt(ss, calls, n); }
    }
  }

  /** So the refresh forest holds between calls of every schedule of statements. */
  lemma ForestBetweenCalls(ps: seq<Pool.State>, turns: seq<Pool.Slot>, n: nat, s: System) returns (s1: System)
    requires Pool.IsSchedule(ps, turns) && Pool.Disciplined(ps[0]) && Shows(ps[0], s) && ForestInv(s) && n < |ps|
    ensures ForestInv(s1) && Shows(ps[n], s1)
  {
    var ss, calls, at := SchedulesRefineInterleavings(ps, turns, n, s);
    L.ForestForever(ss, calls, 0, |calls|);
    s1 := ss[|calls|];
  }
}
