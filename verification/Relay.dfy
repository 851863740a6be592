/**
 * The WebSocket relay of internal/proxy: two pump goroutines, one handler, and a
 * `done` channel closed through a sync.Once, interleaved in any order.
 */
module Relay {

  type Message = int

  /** Each pump is named after the connection it reads. */
  datatype Side = Client | Gateway

  /** `Leaving` is about to run the deferred closeDone, `InOnce` is inside it. */
  datatype Pump = Reading | Holding(message: Message) | Closing | Leaving | InOnce | Ended

  datatype Leg = Leg(pump: Pump, read: seq<Message>, written: seq<Message>, closeSent: bool)

  datatype Once = Fresh | Running | Finished

  /** After `<-done` and the audit write, the deferred closes run, gateway first. */
  datatype Handler = Waiting | Auditing | GatewayClosed | Returned

  datatype State = State(fromClient: Leg, fromGateway: Leg, once: Once, closes: nat, handler: Handler)

  const START := State(Leg(Reading, [], [], false), Leg(Reading, [], [], false), Fresh, 0, Waiting)

  datatype Event =
    | Receive(side: Side, message: Message)
    | ReadError(side: Side, closeFrame: bool)
    | Write(side: Side)
    | WriteError(side: Side)
    | ForwardClose(side: Side, ok: bool)
    | CallOnce(side: Side)
    | CloseDone(side: Side)
    | Wake
    | CloseGateway
    | CloseClient

  function LegOf(s: State, side: Side): Leg {
    if side.Client? then s.fromClient else s.fromGateway
  }

  function WithLeg(s: State, side: Side, leg: Leg): State {
    if side.Client? then s.(fromClient := leg) else s.(fromGateway := leg)
  }

  /** Whether the connection a pump writes to is still open. */
  predicate TargetOpen(s: State, side: Side) {
    if side.Client? then s.handler.Waiting? || s.handler.Auditing? else !s.handler.Returned?
  }

  predicate Enabled(s: State, e: Event) {
    match e
    case Receive(side, _) => LegOf(s, side).pump.Reading?
    case ReadError(side, _) => LegOf(s, side).pump.Reading?
    case Write(side) => LegOf(s, side).pump.Holding? && TargetOpen(s, side)
    case WriteError(side) => LegOf(s, side).pump.Holding?
    case ForwardClose(side, ok) => LegOf(s, side).pump.Closing? && (ok ==> TargetOpen(s, side))
    case CallOnce(side) => LegOf(s, side).pump.Leaving? && !s.once.Running?
    case CloseDone(side) => LegOf(s, side).pump.InOnce?
    case Wake => s.handler.Waiting? && s.closes > 0
    case CloseGateway => s.handler.Auditing?
    case CloseClient => s.handler.GatewayClosed?
  }

  function After(s: State, e: Event): State
    requires Enabled(s, e)
  {
    match e
    case Receive(side, m) =>
      var leg := LegOf(s, side);
      WithLeg(s, side, leg.(pump := Holding(m), read := leg.read + [m]))
    case ReadError(side, closeFrame) =>
      WithLeg(s, side, LegOf(s, side).(pump := if closeFrame then Closing else Leaving))
    case Write(side) =>
      var leg := LegOf(s, side);
      WithLeg(s, side, leg.(pump := Reading, written := leg.written + [leg.pump.message]))
    case WriteError(side) =>
      WithLeg(s, side, LegOf(s, side).(pump := Leaving))
    case ForwardClose(side, ok) =>
      WithLeg(s, side, LegOf(s, side).(pump := Leaving, closeSent := ok))
    case CallOnce(side) =>
      if s.once.Fresh? then WithLeg(s, side, LegOf(s, side).(pump := InOnce)).(once := Running)
      else WithLeg(s, side, LegOf(s, side).(pump := Ended))
    case CloseDone(side) =>
      WithLeg(s, side, LegOf(s, side).(pump := Ended)).(once := Finished, closes := s.closes + 1)
    case Wake => s.(handler := Auditing)
    case CloseGateway => s.(handler := GatewayClosed)
    case CloseClient => s.(handler := Returned)
  }

  ghost predicate IsRun(states: seq<State>, events: seq<Event>) {
    && |states| == |events| + 1
    && forall i :: 0 <= i < |events| ==> Enabled(states[i], events[i]) && states[i + 1] == After(states[i], events[i])
  }

  // ----- what holds in every reachable state

  /** In order, nothing lost but the one message a pump holds or died holding. */
  predicate InStep(leg: Leg) {
    && leg.written <= leg.read
    && |leg.read| <= |leg.written| + 1
    && (leg.pump.Holding? ==> leg.read == leg.written + [leg.pump.message])
    && (leg.pump.Reading? || leg.pump.Closing? ==> leg.read == leg.written && !leg.closeSent)
    && (leg.pump.Holding? ==> !leg.closeSent)
    && (leg.closeSent ==> leg.read == leg.written)
  }

  function Inside(leg: Leg): nat {
    if leg.pump.InOnce? then 1 else 0
  }

  predicate OnceAgrees(s: State) {
    && Inside(s.fromClient) + Inside(s.fromGateway) == (if s.once.Running? then 1 else 0)
    && s.closes == (if s.once.Finished? then 1 else 0)
    && (s.fromClient.pump.Ended? || s.fromGateway.pump.Ended? ==> s.once.Finished?)
    && (!s.handler.Waiting? ==> s.once.Finished?)
    // the first pump into the once does not leave it before `done` is closed
    && (s.once.Finished? ==> s.fromClient.pump.Ended? || s.fromGateway.pump.Ended?)
  }

  predicate Sound(s: State) {
    InStep(s.fromClient) && InStep(s.fromGateway) && OnceAgrees(s)
  }

  lemma StepKeepsLegs(s: State, e: Event)
    requires Enabled(s, e) && InStep(s.fromClient) && InStep(s.fromGateway)
    ensures InStep(After(s, e).fromClient) && InStep(After(s, e).fromGateway)
  {
  }

  lemma StepKeepsOnce(s: State, e: Event)
    requires Enabled(s, e) && OnceAgrees(s)
    ensures OnceAgrees(After(s, e))
  {
  }

  /**
   * In every interleaving each leg relays in order, lagging by at most one message, and `done`
   * is closed at most once.
   */
  lemma {:induction false} EveryStateIsSound(states: seq<State>, events: seq<Event>)
    requires IsRun(states, events) && states[0] == START
    ensures forall i :: 0 <= i < |states| ==> Sound(states[i])
  {
    if events != [] {
      var n := |events| - 1;
      EveryStateIsSound(states[..n + 1], events[..n]);
      assert states[..n + 1][n] == states[n];
      StepKeepsLegs(states[n], events[n]);
      StepKeepsOnce(states[n], events[n]);
      forall i | 0 <= i < |states|
        ensures Sound(states[i])
      {
        assert i <= n ==> states[..n + 1][i] == states[i];
      }
    }
  }

  // ----- what never changes back

  predicate LegAdvances(a: Leg, b: Leg) {
    && a.read <= b.read
    && a.written <= b.written
    && (a.closeSent ==> b.closeSent && b.written == a.written)
  }

  lemma OneStepAdvances(s: State, e: Event, side: Side)
    requires Enabled(s, e) && Sound(s)
    ensures LegAdvances(LegOf(s, side), LegOf(After(s, e), side))
  {
  }

  lemma AdvancesCompose(a: Leg, b: Leg, c: Leg)
    requires LegAdvances(a, b) && LegAdvances(b, c)
    ensures LegAdvances(a, c)
  {
  }

  lemma {:induction false} LegsAdvance(states: seq<State>, events: seq<Event>, i: nat, j: nat, side: Side)
    requires IsRun(states, events)
    requires forall n :: 0 <= n < |states| ==> Sound(states[n])
    requires i <= j < |states|
    ensures LegAdvances(LegOf(states[i], side), LegOf(states[j], side))
    decreases j - i
  {
    if i < j {
      LegsAdvance(states, events, i, j - 1, side);
      var s, e := states[j - 1], events[j - 1];
      OneStepAdvances(s, e, side);
      AdvancesCompose(LegOf(states[i], side), LegOf(s, side), LegOf(After(s, e), side));
    }
  }

  /** What was delivered stays delivered, and nothing follows a forwarded close on the same leg. */
  lemma NothingFollowsAClose(states: seq<State>, events: seq<Event>, i: nat, j: nat, side: Side)
    requires IsRun(states, events) && states[0] == START
    requires i <= j < |states|
    ensures LegOf(states[i], side).written <= LegOf(states[j], side).written
    ensures LegOf(states[i], side).closeSent ==>
              LegOf(states[j], side).written == LegOf(states[i], side).written == LegOf(states[i], side).read
  {
    EveryStateIsSound(states, events);
    LegsAdvance(states, events, i, j, side);
    assert Sound(states[i]);
  }

  // ----- how it ends

  function PumpWork(pump: Pump): nat {
    match pump
    case Reading => 5
    case Holding(_) => 4
    case Closing => 3
    case Leaving => 2
    case InOnce => 1
    case Ended => 0
  }

  function Work(s: State): nat {
    PumpWork(s.fromClient.pump) + PumpWork(s.fromGateway.pump)
  }

  predicate AllEnded(s: State) {
    s.fromClient.pump.Ended? && s.fromGateway.pump.Ended?
  }

  /** With both connections closed no write succeeds, so every step is progress. */
  lemma StepsShrinkWork(s: State, e: Event)
    requires Enabled(s, e) && s.handler.Returned?
    ensures After(s, e).handler.Returned? && Work(After(s, e)) < Work(s)
  {
  }

  /** Once the handler has returned, the pumps have at most ten steps left between them. */
  lemma {:induction false} PumpsStopSoon(states: seq<State>, events: seq<Event>)
    requires IsRun(states, events) && states[0].handler.Returned?
    ensures |events| + Work(states[|events|]) <= Work(states[0]) <= 10
    ensures states[|events|].handler.Returned?
  {
    if events != [] {
      var n := |events| - 1;
      assert states[..n + 1][0] == states[0] && states[..n + 1][n] == states[n];
      PumpsStopSoon(states[..n + 1], events[..n]);
      StepsShrinkWork(states[n], events[n]);
    }
  }

  /** Steps that wait for no peer: all but a read on a connection still open. */
  predicate IsInternal(s: State, e: Event) {
    match e
    case Receive(_, _) => false
    case ReadError(side, _) => if side.Client? then s.handler.Returned? else !TargetOpen(s, Client)
    case _ => true
  }

  ghost predicate CanMove(s: State) {
    exists e :: Enabled(s, e) && IsInternal(s, e)
  }

  lemma PumpCanMove(s: State, side: Side)
    requires Sound(s)
    requires !LegOf(s, side).pump.Ended? && !LegOf(s, side).pump.Reading?
    ensures CanMove(s)
  {
    match LegOf(s, side).pump
    case Holding(_) => assert Enabled(s, WriteError(side));
    case Closing => assert Enabled(s, ForwardClose(side, false));
    case InOnce => assert Enabled(s, CloseDone(side));
    case Leaving =>
      if s.once.Running? {
        var inside := if s.fromClient.pump.InOnce? then Client else Gateway;
        assert Enabled(s, CloseDone(inside));
      } else {
        assert Enabled(s, CallOnce(side));
      }
  }

  lemma HandlerCanMove(s: State)
    requires Sound(s) && s.once.Finished?
    ensures CanMove(s) || s.handler.Returned?
  {
    match s.handler
    case Waiting => assert Enabled(s, Wake) && IsInternal(s, Wake);
    case Auditing => assert Enabled(s, CloseGateway) && IsInternal(s, CloseGateway);
    case GatewayClosed => assert Enabled(s, CloseClient) && IsInternal(s, CloseClient);
    case Returned =>
  }

  /**
   * Nothing hangs: a state with no step of its own left is either the idle relay,
   * both pumps waiting for a peer, or one where the handler has returned, both
   * pumps have ended and `done` was closed exactly once.
   */
  lemma NothingHangs(s: State)
    requires Sound(s)
    ensures !CanMove(s) <==>
              || (s.fromClient.pump.Reading? && s.fromGateway.pump.Reading? && s.handler.Waiting?)
              || (AllEnded(s) && s.handler.Returned? && s.closes == 1)
  {
    forall side | !LegOf(s, side).pump.Ended? && !LegOf(s, side).pump.Reading?
      ensures CanMove(s)
    {
      PumpCanMove(s, side);
    }
    if s.once.Finished? {
      HandlerCanMove(s);
    }
    if !CanMove(s) {
      assert LegOf(s, Client).pump.Ended? || LegOf(s, Client).pump.Reading?;
      assert LegOf(s, Gateway).pump.Ended? || LegOf(s, Gateway).pump.Reading?;
      if s.handler.Returned? {
        assert IsInternal(s, ReadError(Client, false)) && IsInternal(s, ReadError(Gateway, false));
      }
    } else {
      var e :| Enabled(s, e) && IsInternal(s, e);
    }
  }

  // ----- what the relay is for

  ghost predicate Moves(s: State, e: Event, s1: State) {
    Enabled(s, e) && s1 == After(s, e)
  }

  /** A message read on one side can be written to the other as long as that is open, and is then delivered. */
  lemma AMessageIsRelayed(s: State, side: Side, message: Message) returns (s1: State, s2: State)
    requires LegOf(s, side).pump.Reading? && s.handler.Waiting?
    ensures Moves(s, Receive(side, message), s1) && Moves(s1, Write(side), s2)
    ensures LegOf(s2, side) == LegOf(s, side).(read := LegOf(s, side).read + [message],
                                               written := LegOf(s, side).written + [message])
    ensures s2.handler == s.handler && s2.once == s.once && s2.closes == s.closes
    ensures var other := if side.Client? then Gateway else Client; LegOf(s2, other) == LegOf(s, other)
  {
    s1 := After(s, Receive(side, message));
    s2 := After(s1, Write(side));
  }

  /** A close frame read on one side is sent on to the other as long as that is open. */
  lemma ACloseIsForwarded(s: State, side: Side) returns (s1: State, s2: State)
    requires LegOf(s, side).pump.Reading? && s.handler.Waiting?
    ensures Moves(s, ReadError(side, true), s1) && Moves(s1, ForwardClose(side, true), s2)
    ensures LegOf(s2, side) == LegOf(s, side).(pump := Leaving, closeSent := true)
  {
    s1 := After(s, ReadError(side, true));
    s2 := After(s1, ForwardClose(side, true));
  }

  /** Any other read error ends the pump, which wakes the handler; it closes the gateway first, then the client. */
  lemma AnErrorEndsTheRelay(s: State, side: Side) returns (ss: seq<State>)
    requires LegOf(s, side).pump.Reading? && s.handler.Waiting? && s.once.Fresh? && s.closes == 0
    ensures |ss| == 7 && ss[0] == s
    ensures Moves(ss[0], ReadError(side, false), ss[1]) && Moves(ss[1], CallOnce(side), ss[2])
    ensures Moves(ss[2], CloseDone(side), ss[3]) && Moves(ss[3], Wake, ss[4])
    ensures Moves(ss[4], CloseGateway, ss[5]) && Moves(ss[5], CloseClient, ss[6])
    ensures LegOf(ss[6], side).pump.Ended? && ss[6].closes == 1 && ss[6].handler.Returned?
    ensures TargetOpen(ss[4], Client) && !TargetOpen(ss[5], Client)
    ensures TargetOpen(ss[5], Gateway) && !TargetOpen(ss[6], Gateway)
  {
    var a := After(s, ReadError(side, false));
    var b := After(a, CallOnce(side));
    var c := After(b, CloseDone(side));
    var d := After(c, Wake);
    var e := After(d, CloseGateway);
    ss := [s, a, b, c, d, e, After(e, CloseClient)];
  }
}
