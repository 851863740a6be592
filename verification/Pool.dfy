/**
 * The pool with its single connection, statement by statement. Every job is a thread that
 * takes the connection, sends statements, and gives the connection back; a thread that
 * asks while another holds it waits.
 */
module Pool {
  import opened Base
  import opened Tables
  import opened Broker
  import opened Jobs

  /** `Keep` ends a call without giving the connection back: what an outer BeginTx does. */
  datatype Action = Take | Do(stmt: Stmt) | Ask(query: Query) | Give | Keep

  function Statements(stmts: seq<Stmt>): seq<Action> {
    seq(|stmts|, i requires 0 <= i < |stmts| => Do(stmts[i]))
  }

  /** The connection steps of one call of internal/db. */
  function Program(c: Option<Call>): (p: seq<Action>)
    ensures |p| == Size(c)
  {
    match c
    case None => []
    case Some(Lookup(q)) => [Take, Ask(q), Give]
    case Some(Batch(stmts)) => [Take] + Statements(stmts) + [Give]
    case Some(BeginOuter) => [Take, Keep]
  }

  datatype Thread = Thread(job: Job, todo: seq<Action>)

  /** Who holds the connection, what a rollback would restore, and how the call is going. */
  datatype Hold = Hold(thread: nat, saved: Tables, failed: bool, result: Result)

  /** `t` is what the connection sees: uncommitted changes included. */
  datatype State = State(t: Tables, hold: Option<Hold>, threads: seq<Thread>)

  function Start(j: Job): Thread {
    Thread(j, Program(CallOf(j)))
  }

  predicate Unfinished(p: State, k: nat) {
    k < |p.threads| && p.threads[k].todo != []
  }

  /** A thread can move unless it is finished or asks for a connection that is out. */
  predicate CanMove(p: State, k: nat) {
    Unfinished(p, k) && (p.threads[k].todo[0] == Take ==> p.hold.None?)
                     && (p.threads[k].todo[0] != Take ==> p.hold.Some? && p.hold.value.thread == k)
  }

  /** Thread `k` does its next action; `fails` lets the engine refuse it. */
  ghost function Move(p: State, k: nat, fails: bool): State
    requires CanMove(p, k)
  {
    var th := p.threads[k];
    var rest := th.todo[1..];
    match th.todo[0]
    case Take => State(p.t, Some(Hold(k, p.t, false, Done)), p.threads[k := th.(todo := rest)])
    case Do(stmt) =>
      var after := Exec(p.t, stmt);
      if fails || after.None? then Abandon(p, k)
      else State(after.value, p.hold, p.threads[k := th.(todo := rest)])
    case Ask(query) =>
      if fails then Abandon(p, k)
      else State(p.t, Some(p.hold.value.(result := Answer(p.t, query))), p.threads[k := th.(todo := rest)])
    case Give =>
      var failed := fails || p.hold.value.failed;
      State(if failed then p.hold.value.saved else p.t, None,
            p.threads[k := Start(Resume(th.job, if failed then Failed else p.hold.value.result))])
    case Keep => State(p.t, p.hold, p.threads[k := Start(Resume(th.job, Done))])
  }

  /** The early return of a failed statement: all that is left is the deferred rollback. */
  function Abandon(p: State, k: nat): State
    requires k < |p.threads| && p.hold.Some?
  {
    State(p.t, Some(p.hold.value.(failed := true)), p.threads[k := p.threads[k].(todo := [Give])])
  }

  // ----- the discipline the handlers keep

  /** The holder is inside one call: its finished statements lead from `saved` to the current tables. */
  ghost predicate InsideCall(t: Tables, h: Hold, th: Thread) {
    CallOf(th.job).Some? &&
    match CallOf(th.job).value
    case Lookup(q) =>
      t == h.saved && ((h.failed && th.todo == [Give]) || (!h.failed && th.todo == [Ask(q), Give])
                       || (!h.failed && th.todo == [Give] && h.result == Answer(t, q)))
    case Batch(stmts) =>
      (h.failed && th.todo == [Give])
      || (!h.failed && h.result == Done && 1 <= |th.todo| <= |stmts| + 1
          && var n := |stmts| + 1 - |th.todo|;
             th.todo == Statements(stmts[n..]) + [Give] && ExecAll(h.saved, stmts[..n]) == Some(t))
    case BeginOuter => false
  }

  /** Everybody but the holder stands before a call, holding nothing. */
  ghost predicate Disciplined(p: State) {
    && (p.hold.Some? ==>
          p.hold.value.thread < |p.threads| && InsideCall(p.t, p.hold.value, p.threads[p.hold.value.thread]))
    && (forall k :: 0 <= k < |p.threads| && !(p.hold.Some? && p.hold.value.thread == k) ==>
          p.threads[k] == Start(p.threads[k].job))
    && (forall k :: 0 <= k < |p.threads| ==> !p.threads[k].job.OuterBegin?)
  }

  lemma StartIsDisciplined(t: Tables, jobs: seq<Job>)
    requires forall k :: 0 <= k < |jobs| ==> !jobs[k].OuterBegin?
    ensures Disciplined(State(t, None, seq(|jobs|, k requires 0 <= k < |jobs| => Start(jobs[k]))))
  {
  }

  // ----- transactions refine indivisible calls

  /** The tables and the jobs as seen between calls: a call in progress has not happened yet. */
  ghost function Between(p: State): (Tables, seq<Job>) {
    (if p.hold.Some? then p.hold.value.saved else p.t,
     seq(|p.threads|, k requires 0 <= k < |p.threads| => p.threads[k].job))
  }

  lemma {:induction false} ExecAllSnoc(t: Tables, stmts: seq<Stmt>, n: nat)
    requires n < |stmts|
    ensures ExecAll(t, stmts[..n + 1]) ==
            if ExecAll(t, stmts[..n]).None? then None else Exec(ExecAll(t, stmts[..n]).value, stmts[n])
    decreases n
  {
    if n == 0 {
      assert stmts[..1] == [stmts[0]] && stmts[..0] == [];
      ExecOne(t, stmts[0]);
    } else {
      assert stmts[..n + 1][1..] == stmts[1..][..n] && stmts[..n][1..] == stmts[1..][..n - 1];
      if Exec(t, stmts[0]).Some? {
        ExecAllSnoc(Exec(t, stmts[0]).value, stmts[1..], n - 1);
      }
    }
  }

  /** A sequence that stops at a refused statement never succeeds as a whole. */
  lemma {:induction false} ExecAllStops(t: Tables, stmts: seq<Stmt>, n: nat)
    requires n <= |stmts| && ExecAll(t, stmts[..n]).None?
    ensures ExecAll(t, stmts).None?
    decreases |stmts| - n
  {
    if n == |stmts| {
      assert stmts[..n] == stmts;
    } else {
      ExecAllSnoc(t, stmts, n);
      ExecAllStops(t, stmts, n + 1);
    }
  }

  /** Taking the connection, a statement or a question: nothing happens between calls. */
  lemma InnerMoveIsUnseen(p: State, k: nat, fails: bool)
    requires CanMove(p, k) && p.threads[k].todo[0] != Give && p.threads[k].todo[0] != Keep
    ensures Between(Move(p, k, fails)) == Between(p)
  {
    assert Between(Move(p, k, fails)).1 == Between(p).1;
  }

  lemma NobodyKeeps(p: State, k: nat)
    requires Disciplined(p) && CanMove(p, k)
    ensures p.threads[k].todo[0] != Keep
  {
    if p.threads[k].todo[0] != Take {
      match CallOf(p.threads[k].job).value
      case Batch(stmts) =>
        var n := |stmts| + 1 - |p.threads[k].todo|;
        assert !p.hold.value.failed ==> p.threads[k].todo[0] == (Statements(stmts[n..]) + [Give])[0];
      case _ =>
    }
  }

  lemma HolderStaysDisciplined(p: State, p1: State, k: nat)
    requires Disciplined(p) && k < |p.threads| && (p.hold.Some? ==> p.hold.value.thread == k)
    requires p1.hold.Some? && p1.hold.value.thread == k && |p1.threads| == |p.threads|
    requires forall l :: 0 <= l < |p.threads| && l != k ==> p1.threads[l] == p.threads[l]
    requires p1.threads[k].job == p.threads[k].job && InsideCall(p1.t, p1.hold.value, p1.threads[k])
    ensures Disciplined(p1)
  {
  }

  /** Before the connection is given back, a move touches its own thread only. */
  lemma InnerMoveShape(p: State, k: nat, fails: bool)
    requires CanMove(p, k) && p.threads[k].todo[0] != Give && p.threads[k].todo[0] != Keep
    ensures var p1 := Move(p, k, fails);
            && p1.hold.Some? && p1.hold.value.thread == k && |p1.threads| == |p.threads|
            && p1.threads[k].job == p.threads[k].job
            && forall l :: 0 <= l < |p.threads| && l != k ==> p1.threads[l] == p.threads[l]
  {
  }

  lemma InnerMove(p: State, k: nat, fails: bool)
    requires Disciplined(p) && CanMove(p, k) && p.threads[k].todo[0] != Give
    ensures Disciplined(Move(p, k, fails))
  {
    NobodyKeeps(p, k);
    InnerMoveShape(p, k, fails);
    var p1 := Move(p, k, fails);
    assert InsideCall(p1.t, p1.hold.value, p1.threads[k]) by {
      if p.threads[k].todo[0] == Take {
        TakeEntersCall(p, k, fails);
      } else {
        WorkStaysInside(p, k, fails);
      }
    }
    HolderStaysDisciplined(p, p1, k);
  }

  lemma TakeEntersCall(p: State, k: nat, fails: bool)
    requires Disciplined(p) && CanMove(p, k) && p.threads[k].todo[0] == Take
    ensures var p1 := Move(p, k, fails); InsideCall(p1.t, p1.hold.value, p1.threads[k])
  {
    var th := p.threads[k];
    assert th == Start(th.job);
    match CallOf(th.job).value
    case Batch(stmts) =>
      assert stmts[0..] == stmts && stmts[..0] == [];
      assert th.todo[1..] == Statements(stmts) + [Give];
    case Lookup(q) =>
      assert th.todo[1..] == [Ask(q), Give];
    case BeginOuter =>
  }

  lemma WorkStaysInside(p: State, k: nat, fails: bool)
    requires Disciplined(p) && CanMove(p, k) && p.threads[k].todo[0] != Take && p.threads[k].todo[0] != Give
    ensures var p1 := Move(p, k, fails);
            InsideCall(p1.t, p1.hold.value, p1.threads[k]) && p1.hold.value.saved == p.hold.value.saved
  {
    var th, h := p.threads[k], p.hold.value;
    match CallOf(th.job).value
    case Batch(stmts) =>
      var n := |stmts| + 1 - |th.todo|;
      if n < |stmts| {
        assert th.todo[0] == Do(stmts[n]);
        assert th.todo[1..] == Statements(stmts[n + 1..]) + [Give];
        ExecAllSnoc(h.saved, stmts, n);
      }
    case Lookup(q) =>
      assert [Ask(q), Give][1..] == [Give];
    case BeginOuter =>
  }

  /** Giving the connection back is the moment the whole call happens, or fails without a trace. */
  lemma GiveIsTheCall(p: State, k: nat, fails: bool) returns (ok: bool)
    requires Disciplined(p) && CanMove(p, k) && p.threads[k].todo[0] == Give
    ensures CallOf(p.threads[k].job).Some? && Disciplined(Move(p, k, fails))
    ensures var (t1, res) := Effect(Between(p).0, CallOf(p.threads[k].job).value, ok);
            Between(Move(p, k, fails)) == (t1, Between(p).1[k := Resume(p.threads[k].job, res)])
  {
    var th, h := p.threads[k], p.hold.value;
    ok := !fails && !h.failed;
    CompletedCall(p, k, ok);
    ResumeStaysCurrent(th.job, if ok then h.result else Failed);
    var (t1, res) := Effect(h.saved, CallOf(th.job).value, ok);
    var p1 := Move(p, k, fails);
    assert p1.threads[k] == Start(Resume(th.job, res));
    assert Between(p1).1 == Between(p).1[k := Resume(th.job, res)];
  }

  lemma CompletedCall(p: State, k: nat, ok: bool)
    requires Disciplined(p) && CanMove(p, k) && p.threads[k].todo[0] == Give && (ok ==> !p.hold.value.failed)
    ensures CallOf(p.threads[k].job).Some?
    ensures Effect(p.hold.value.saved, CallOf(p.threads[k].job).value, ok)
         == if ok then (p.t, p.hold.value.result) else (p.hold.value.saved, Failed)
  {
    var th, h := p.threads[k], p.hold.value;
    match CallOf(th.job).value
    case Batch(stmts) =>
      if ok {
        var n := |stmts| + 1 - |th.todo|;
        assert th.todo[0] == (Statements(stmts[n..]) + [Give])[0];
        assert n == |stmts| && stmts[..|stmts|] == stmts;
      }
    case Lookup(q) =>
    case BeginOuter =>
  }

  lemma ResumeStaysCurrent(j: Job, res: Result)
    requires !j.OuterBegin?
    ensures !Resume(j, res).OuterBegin?
  {
  }

  /**
   * Transactions refine indivisible calls: whatever a thread does on the connection, the
   * tables between calls either stay as they are or change by one whole call of that
   * thread's job, with the result the job then resumes from; rollback included.
   */
  lemma EveryMoveIsACallOrNothing(p: State, k: nat, fails: bool)
    requires Disciplined(p) && CanMove(p, k)
    ensures Disciplined(Move(p, k, fails))
    ensures Between(Move(p, k, fails)) == Between(p)
            || exists ok :: CallHappens(Between(p), Between(Move(p, k, fails)), k, ok)
  {
    if p.threads[k].todo[0] == Give {
      var ok := GiveIsTheCall(p, k, fails);
      assert CallHappens(Between(p), Between(Move(p, k, fails)), k, ok);
    } else {
      NobodyKeeps(p, k);
      InnerMove(p, k, fails);
      InnerMoveIsUnseen(p, k, fails);
    }
  }

  ghost predicate CallHappens(before: (Tables, seq<Job>), after: (Tables, seq<Job>), k: nat, ok: bool) {
    && k < |before.1| && CallOf(before.1[k]).Some?
    && var (t1, res) := Effect(before.0, CallOf(before.1[k]).value, ok);
       after == (t1, before.1[k := Resume(before.1[k], res)])
  }

  // ----- deadlock freedom and termination

  /** While a thread is unfinished, some thread can move: nobody asks for the connection while holding it. */
  lemma SomebodyCanMove(p: State, k: nat) returns (l: nat)
    requires Disciplined(p) && Unfinished(p, k)
    ensures CanMove(p, l)
  {
    if p.hold.Some? {
      l := p.hold.value.thread;
      var th := p.threads[l];
      match CallOf(th.job).value
      case Batch(stmts) =>
        var n := |stmts| + 1 - |th.todo|;
        if !p.hold.value.failed && n < |stmts| { assert th.todo[0] == Do(stmts[n]); }
      case _ =>
    } else {
      l := k;
      var j := p.threads[k].job;
      assert p.threads[k] == Start(j);
      match CallOf(j).value
      case BeginOuter =>
      case _ =>
    }
  }

  /** Connection steps a thread may still take. */
  function Left(th: Thread): nat {
    |th.todo| + Later(th.job)
  }

  function TotalLeft(threads: seq<Thread>): nat {
    if threads == [] then 0 else Left(threads[0]) + TotalLeft(threads[1..])
  }

  lemma {:induction false} TotalDropsAtOne(threads: seq<Thread>, k: nat, th: Thread)
    requires k < |threads| && Left(th) < Left(threads[k])
    ensures TotalLeft(threads[k := th]) < TotalLeft(threads)
  {
    if k == 0 {
      assert threads[k := th][1..] == threads[1..];
    } else {
      assert threads[k := th][1..] == threads[1..][k - 1 := th];
      TotalDropsAtOne(threads[1..], k - 1, th);
    }
  }

  lemma MoveShortensThread(p: State, k: nat, fails: bool)
    requires Disciplined(p) && CanMove(p, k)
    ensures |Move(p, k, fails).threads| == |p.threads| && Left(Move(p, k, fails).threads[k]) < Left(p.threads[k])
    ensures Move(p, k, fails).threads == p.threads[k := Move(p, k, fails).threads[k]]
  {
    var th := p.threads[k];
    if th.todo[0] == Give {
      ResumeFits(th.job, if fails || p.hold.value.failed then Failed else p.hold.value.result) by {
        assert CallOf(th.job).Some?;
      }
    } else if th.todo[0] != Take {
      match CallOf(th.job).value
      case Batch(stmts) => assert |th.todo| >= 2;
      case _ =>
    }
  }

  /** One scheduling decision. */
  datatype Slot = Slot(thread: nat, fails: bool)

  ghost predicate MoveAt(ps: seq<State>, turns: seq<Slot>, n: nat)
    requires n < |turns| && |ps| == |turns| + 1
  {
    CanMove(ps[n], turns[n].thread) && ps[n + 1] == Move(ps[n], turns[n].thread, turns[n].fails)
  }

  ghost predicate IsSchedule(ps: seq<State>, turns: seq<Slot>) {
    |ps| == |turns| + 1 && forall n :: 0 <= n < |turns| ==> MoveAt(ps, turns, n)
  }

  lemma MoveDecreases(p: State, k: nat, fails: bool)
    requires Disciplined(p) && CanMove(p, k)
    ensures Disciplined(Move(p, k, fails)) && TotalLeft(Move(p, k, fails).threads) < TotalLeft(p.threads)
  {
    EveryMoveIsACallOrNothing(p, k, fails);
    MoveShortensThread(p, k, fails);
    TotalDropsAtOne(p.threads, k, Move(p, k, fails).threads[k]);
  }

  lemma TurnDecreases(ps: seq<State>, turns: seq<Slot>, n: nat)
    requires IsSchedule(ps, turns) && n < |turns| && Disciplined(ps[n])
    ensures Disciplined(ps[n + 1]) && TotalLeft(ps[n + 1].threads) < TotalLeft(ps[n].threads)
  {
    assert MoveAt(ps, turns, n);
    MoveDecreases(ps[n], turns[n].thread, turns[n].fails);
  }

  lemma {:induction false} SchedulesShorten(ps: seq<State>, turns: seq<Slot>, n: nat)
    requires IsSchedule(ps, turns) && Disciplined(ps[0]) && n < |ps|
    ensures Disciplined(ps[n]) && TotalLeft(ps[n].threads) + n <= TotalLeft(ps[0].threads)
  {
    if n > 0 {
      SchedulesShorten(ps, turns, n - 1);
      TurnDecreases(ps, turns, n - 1);
    }
  }

  /**
   * Any number of concurrent requests, any schedule, any failures: no schedule is longer
   * than the work there was at the start, and one that cannot be continued has finished
   * every request and given the connection back.
   */
  lemma EveryRequestFinishes(ps: seq<State>, turns: seq<Slot>)
    requires IsSchedule(ps, turns) && Disciplined(ps[0])
    ensures |turns| <= TotalLeft(ps[0].threads)
    ensures (forall k: nat :: !CanMove(ps[|turns|], k)) ==>
              && ps[|turns|].hold.None?
              && forall k :: 0 <= k < |ps[|turns|].threads| ==> ps[|turns|].threads[k].job.Finished?
  {
    var p := ps[|turns|];
    SchedulesShorten(ps, turns, |turns|);
    if forall k: nat :: !CanMove(p, k) {
      forall k | 0 <= k < |p.threads|
        ensures p.threads[k].todo == []
      {
        if p.threads[k].todo != [] { var l := SomebodyCanMove(p, k); }
      }
      QuietMeansFinished(p);
    }
  }

  lemma QuietMeansFinished(p: State)
    requires Disciplined(p) && forall k :: 0 <= k < |p.threads| ==> p.threads[k].todo == []
    ensures p.hold.None? && forall k :: 0 <= k < |p.threads| ==> p.threads[k].job.Finished?
  {
    forall k | 0 <= k < |p.threads|
      ensures p.threads[k].job.Finished?
    {
      assert Size(CallOf(p.threads[k].job)) == 0 || p.hold.Some?;
    }
  }

  // ----- the shape that deadlocked

  /**
   * The refresh handler with an outer BeginTx around its calls: once it has begun, it
   * holds the connection, asks for it, and can never move again; nor can any other
   * thread that stands before a call. No failure is needed.
   */
  lemma OuterTransactionDeadlocks(p: State, k: nat)
    requires Unfinished(p, k) && p.hold.None? && p.threads[k].job.OuterBegin? && p.threads[k] == Start(p.threads[k].job)
    requires forall l :: 0 <= l < |p.threads| && l != k ==> p.threads[l] == Start(p.threads[l].job)
    ensures CanMove(p, k) && CanMove(Move(p, k, false), k)
    ensures var stuck := Move(Move(p, k, false), k, false);
            Unfinished(stuck, k) && forall l: nat :: !CanMove(stuck, l)
  {
    var j := p.threads[k].job;
    var p1 := Move(p, k, false);
    assert [Take, Keep][1..] == [Keep];
    var stuck := Move(p1, k, false);
    assert stuck.threads[k] == Start(RefreshAccess(j.r, j.id, j.row));
    forall l: nat
      ensures !CanMove(stuck, l)
    {
      if l < |stuck.threads| && stuck.threads[l].todo != [] {
        StartsWithTake(stuck.threads[l].job);
      }
    }
  }

  lemma StartsWithTake(j: Job)
    ensures Start(j).todo != [] ==> Start(j).todo[0] == Take
  {
  }
}
