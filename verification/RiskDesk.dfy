/**
  The risk loop drives the order manager only through its inputs, so what every input keeps holds in
  every state the loop can reach.
 */
module RiskDesk {
  import opened Domain
  import opened RiskLoop
  import opened RiskSafety
  import Desk
  import FillEngines
  import Journal
  import OrderTracking
  import Venue

  // ----- The inputs behind each call

  /** Inputs a reaction of the supervisor may consist of: neither a submit nor a restart. */
  predicate Harmless(inputs: seq<Desk.Input>) {
    forall i :: 0 <= i < |inputs| ==> Desk.InputOk(inputs[i]) && !inputs[i].SubmitIn? && !inputs[i].RestartIn?
  }

  lemma {:induction false} InputsJoin(env: Desk.Env, d: Desk.DeskState, xs: seq<Desk.Input>, ys: seq<Desk.Input>)
    ensures Desk.Run(env, d, xs + ys) == Desk.Run(env, Desk.Run(env, d, xs), ys)
  {
    hide Desk.Next;
    if |ys| == 0 {
      assert xs + ys == xs;
    } else {
      assert (xs + ys)[..|xs + ys| - 1] == xs + ys[..|ys| - 1];
      InputsJoin(env, d, xs, ys[..|ys| - 1]);
    }
  }

  lemma OneInput(env: Desk.Env, d: Desk.DeskState, input: Desk.Input)
    ensures Desk.Run(env, d, [input]) == Desk.Next(env, d, input)
  {
    hide Desk.Next;
    assert [input][..0] == [];
  }

  lemma ThreeInputs(env: Desk.Env, d: Desk.DeskState, a: Desk.Input, b: Desk.Input, c: Desk.Input)
    ensures Desk.Run(env, d, [a, b, c]) == Desk.Next(env, Desk.Next(env, Desk.Next(env, d, a), b), c)
  {
    hide Desk.Next;
    OrderTracking.RunTwo(env, d, a, b);
    assert [a, b, c][..2] == [a, b];
  }

  function QuarantineInputs(state: SystemState): seq<Desk.Input> {
    if state == Running then [Desk.CancelAllIn(None), Desk.ClockIn, Desk.ClockIn] else []
  }

  lemma QuarantineDrives(env: Desk.Env, l: LoopState, text: string)
    ensures EnterQuarantine(env, l, text).desk == Desk.Run(env, l.desk, QuarantineInputs(l.state))
  {
    hide Desk.CancelAll, Deliver;
    ThreeInputs(env, l.desk, Desk.CancelAllIn(None), Desk.ClockIn, Desk.ClockIn);
  }

  lemma OnTripDrives(env: Desk.Env, l: LoopState, name: string, action: Severity) returns (inputs: seq<Desk.Input>)
    ensures Harmless(inputs) && OnTrip(env, l, name, action).desk == Desk.Run(env, l.desk, inputs)
  {
    hide Desk.Run, EnterQuarantine, Desk.CancelAll;
    var cancel := [Desk.CancelAllIn(None)];
    OneInput(env, l.desk, cancel[0]);
    QuarantineDrives(env, l, name);
    QuarantineDrives(env, CancelOrders(env, l), name);
    InputsJoin(env, l.desk, cancel, QuarantineInputs(l.state));
    match action
    case RejectNew =>
      inputs := [];
      NoInput(env, l.desk);
    case CancelAll => inputs := cancel;
    case Quarantine => inputs := QuarantineInputs(l.state);
    case Flatten => inputs := cancel + QuarantineInputs(l.state);
  }

  lemma NoInput(env: Desk.Env, d: Desk.DeskState)
    ensures Desk.Run(env, d, []) == d
  {
  }

  lemma {:induction false} TripDrives(
      env: Desk.Env, l: LoopState, to: seq<Subscriber>, name: string, action: Severity)
    returns (inputs: seq<Desk.Input>)
    ensures Harmless(inputs) && DeliverTrip(env, l, to, name, action).desk == Desk.Run(env, l.desk, inputs)
  {
    hide OnTrip, Desk.Run;
    if |to| == 0 {
      inputs := [];
      NoInput(env, l.desk);
    } else {
      inputs := TripDrives(env, l, to[..|to| - 1], name, action);
      if to[|to| - 1].Supervisor? {
        var reaction := OnTripDrives(env, DeliverTrip(env, l, to[..|to| - 1], name, action), name, action);
        InputsJoin(env, l.desk, inputs, reaction);
        inputs := inputs + reaction;
      }
    }
  }

  lemma TickOneDrives(env: Desk.Env, l: LoopState, c: Context, i: int) returns (inputs: seq<Desk.Input>)
    requires 0 <= i < |l.breakers|
    ensures Harmless(inputs) && TickOne(env, l, c, i).loop.desk == Desk.Run(env, l.desk, inputs)
  {
    hide Evaluate, DeliverTrip, Desk.Run;
    var v := Evaluate(l.breakers[i], c);
    var e := l.(breakers := l.breakers[i := v.next]);
    inputs := [];
    NoInput(env, l.desk);
    if v.trigger.Some? {
      inputs := [Desk.ClockIn];
      OneInput(env, l.desk, Desk.ClockIn);
      if e.bus.Up() {
        var reaction := TripDrives(env, ReadClock(e), Matching(e.bus.subs, OnTripped), v.next.name, v.trigger.value);
        InputsJoin(env, l.desk, inputs, reaction);
        inputs := inputs + reaction;
      }
    }
  }

  lemma {:induction false} TickDrives(env: Desk.Env, l: LoopState, c: Context, n: nat) returns (inputs: seq<Desk.Input>)
    ensures Harmless(inputs) && TickUpTo(env, l, c, n).loop.desk == Desk.Run(env, l.desk, inputs)
  {
    hide TickOne, Desk.Run;
    if n == 0 {
      inputs := [];
      NoInput(env, l.desk);
    } else {
      inputs := TickDrives(env, l, c, n - 1);
      var before := TickUpTo(env, l, c, n - 1);
      if !before.raised && n - 1 < |before.loop.breakers| {
        var next := TickOneDrives(env, before.loop, c, n - 1);
        InputsJoin(env, l.desk, inputs, next);
        inputs := inputs + next;
      }
    }
  }

  /** An intent that gets past the check. */
  predicate Passes(env: Desk.Env, l: LoopState, call: Call) {
    call.Intent? && SubmitIntent(env, l, call.total, call.intent, call.cid).result.Submitted?
  }

  /**
    The simulation: whatever is called, the order manager, venue and journal move as under some
    inputs of their own; a submit is among them only for an intent that passes the check, a restart
    only for a start from BOOTING.
   */
  lemma {:induction false} CallDrives(env: Desk.Env, l: LoopState, call: Call) returns (inputs: seq<Desk.Input>)
    requires CallOk(call)
    ensures Next(env, l, call).desk == Desk.Run(env, l.desk, inputs)
    ensures forall i :: 0 <= i < |inputs| ==>
              && Desk.InputOk(inputs[i])
              && (inputs[i].SubmitIn? ==> Passes(env, l, call))
              && (inputs[i].RestartIn? ==> call.Start? && l.state == Booting)
  {
    hide Desk.Run, StartUp, ShutDown, EnterQuarantine, Acknowledge, TickUpTo, CheckUpTo, Deliver, Desk.Submit;
    NoInput(env, l.desk);
    OneInput(env, l.desk, Desk.ClockIn);
    match call
    case Start(outcome) => inputs := StartDrives(env, l, outcome);
    case Stop(drain) => inputs := StopDrives(env, l, drain);
    case ManualQuarantine(text) =>
      inputs := QuarantineInputs(l.state);
      QuarantineDrives(env, l, text);
    case HumanAcknowledge(reconciles) => inputs := AcknowledgeDrives(env, l, reconciles);
    case RiskTick(total) =>
      inputs := TickDrives(env, ReadClock(l), ContextOf(env, l, total), |l.breakers|);
      InputsJoin(env, l.desk, [Desk.ClockIn], inputs);
      inputs := [Desk.ClockIn] + inputs;
    case Intent(total, intent, cid) =>
      if Passes(env, l, call) {
        inputs := [Desk.ClockIn, Desk.SubmitIn(intent, cid)];
        OrderTracking.RunTwo(env, l.desk, inputs[0], inputs[1]);
      } else {
        inputs := [Desk.ClockIn];
      }
    case ErrorReport(_) => inputs := [];
    case Market(input) =>
      inputs := [input];
      OneInput(env, l.desk, input);
  }

  lemma StartDrives(env: Desk.Env, l: LoopState, outcome: StartOutcome) returns (inputs: seq<Desk.Input>)
    ensures StartUp(l, outcome).desk == Desk.Run(env, l.desk, inputs)
    ensures forall i :: 0 <= i < |inputs| ==>
              Desk.InputOk(inputs[i]) && !inputs[i].SubmitIn? && (inputs[i].RestartIn? ==> l.state == Booting)
  {
    hide Desk.Run, Deliver, Desk.Restart;
    NoInput(env, l.desk);
    OneInput(env, l.desk, Desk.ClockIn);
    OrderTracking.RunTwo(env, l.desk, Desk.ClockIn, Desk.RestartIn);
    ThreeInputs(env, l.desk, Desk.ClockIn, Desk.RestartIn, Desk.ClockIn);
    inputs :=
      if l.state != Booting || outcome == PersistenceFails || l.bus.stopped then []
      else if outcome == RestoreFails then [Desk.ClockIn]
      else if outcome == ReconciliationFails then [Desk.ClockIn, Desk.RestartIn]
      else [Desk.ClockIn, Desk.RestartIn, Desk.ClockIn];
  }

  lemma StopDrives(env: Desk.Env, l: LoopState, drain: bool) returns (inputs: seq<Desk.Input>)
    ensures Harmless(inputs) && ShutDown(env, l, drain).desk == Desk.Run(env, l.desk, inputs)
  {
    hide Desk.Run, Deliver, Desk.CancelAll;
    NoInput(env, l.desk);
    OrderTracking.RunTwo(env, l.desk, Desk.ClockIn, Desk.ClockIn);
    ThreeInputs(env, l.desk, Desk.ClockIn, Desk.CancelAllIn(None), Desk.ClockIn);
    inputs :=
      if l.state == Stopped || l.state == Draining then []
      else if drain then [Desk.ClockIn, Desk.CancelAllIn(None), Desk.ClockIn]
      else [Desk.ClockIn, Desk.ClockIn];
  }

  lemma AcknowledgeDrives(env: Desk.Env, l: LoopState, reconciles: bool) returns (inputs: seq<Desk.Input>)
    ensures Harmless(inputs) && Acknowledge(l, reconciles).desk == Desk.Run(env, l.desk, inputs)
  {
    hide Desk.Run, Deliver;
    NoInput(env, l.desk);
    OneInput(env, l.desk, Desk.ClockIn);
    OrderTracking.RunTwo(env, l.desk, Desk.ClockIn, Desk.ClockIn);
    inputs :=
      if l.state != Quarantined then []
      else if reconciles then [Desk.ClockIn, Desk.ClockIn]
      else [Desk.ClockIn];
  }

  // ----- Order ids

  /** Only a submit places an order. */
  lemma {:induction false} InputsKeepIds(env: Desk.Env, d: Desk.DeskState, inputs: seq<Desk.Input>)
    requires forall i :: 0 <= i < |inputs| ==> !inputs[i].SubmitIn?
    ensures Desk.Run(env, d, inputs).venue.nextOid == d.venue.nextOid
  {
    hide Desk.Next;
    if |inputs| > 0 {
      InputsKeepIds(env, d, inputs[..|inputs| - 1]);
      InputKeepsIds(env, Desk.Run(env, d, inputs[..|inputs| - 1]), inputs[|inputs| - 1]);
    }
  }

  lemma InputKeepsIds(env: Desk.Env, d: Desk.DeskState, input: Desk.Input)
    requires !input.SubmitIn?
    ensures Desk.Next(env, d, input).venue.nextOid == d.venue.nextOid
  {
    match input
    case CancelIn(_) =>
    case CancelAllIn(symbol) => CancelEachKeepsIds(env, d, Venue.IdsOn(Desk.Working(d.orders), symbol));
    case BookIn(book) =>
      FillsKeepIds(env, d.(venue := Venue.StoreBook(d.venue, book)), Venue.IdsOn(d.venue.open, Some(book.symbol)),
          book);
    case ClockIn =>
    case RestartIn =>
  }

  lemma {:induction false} CancelEachKeepsIds(env: Desk.Env, d: Desk.DeskState, ids: seq<OrderId>)
    ensures Desk.CancelEach(env, d, ids).venue.nextOid == d.venue.nextOid
  {
    if |ids| > 0 {
      CancelEachKeepsIds(env, d, ids[..|ids| - 1]);
    }
  }

  lemma {:induction false} FillsKeepIds(env: Desk.Env, d: Desk.DeskState, ids: seq<OrderId>, book: Book)
    ensures Desk.TryFillEach(env, d, ids, book).venue.nextOid == d.venue.nextOid
  {
    hide Venue.Attempt, Venue.Updated;
    if |ids| > 0 {
      FillsKeepIds(env, d, ids[..|ids| - 1], book);
    }
  }

  // ----- Before the first start

  /** Nothing was ever submitted: no cached order, no row, no open order. */
  predicate Idle(d: Desk.DeskState) {
    d.orders == map[] && d.rows == [] && d.venue.open == map[]
  }

  lemma {:induction false} InputsKeepIdle(env: Desk.Env, d: Desk.DeskState, inputs: seq<Desk.Input>)
    requires Idle(d) && forall i :: 0 <= i < |inputs| ==> !inputs[i].SubmitIn?
    ensures Idle(Desk.Run(env, d, inputs))
  {
    hide Desk.Next, Idle;
    if |inputs| > 0 {
      InputsKeepIdle(env, d, inputs[..|inputs| - 1]);
      InputKeepsIdle(env, Desk.Run(env, d, inputs[..|inputs| - 1]), inputs[|inputs| - 1]);
    }
  }

  lemma InputKeepsIdle(env: Desk.Env, d: Desk.DeskState, input: Desk.Input)
    requires Idle(d) && !input.SubmitIn?
    ensures Idle(Desk.Next(env, d, input))
  {
    match input
    case CancelIn(_) =>
    case CancelAllIn(symbol) => assert Venue.IdsOn(Desk.Working(d.orders), symbol) == [];
    case BookIn(book) => assert Venue.IdsOn(d.venue.open, Some(book.symbol)) == [];
    case ClockIn =>
    case RestartIn => assert Journal.Ids([]) == {};
  }

  // ----- Reachable states

  /** The desk of a loop at work: the order manager's cache mirrors a consistent venue. */
  ghost predicate DeskReady(d: Desk.DeskState) {
    Desk.Good(d) && Desk.Mirrors(d)
  }

  /** In its log and wiring the loop is as the code leaves it; its desk is ready, and idle while BOOTING. */
  ghost predicate Ready(l: LoopState) {
    Logged(l) && DeskReady(l.desk) && (l.state == Booting ==> Idle(l.desk))
  }

  lemma {:induction false} CallKeepsReady(env: Desk.Env, l: LoopState, call: Call)
    requires env.engine.Sane() && Ready(l) && CallOk(call)
    requires l.state == Booting ==> !Passes(env, l, call)
    ensures Ready(Next(env, l, call))
  {
    hide Next, Logged, Desk.Run, Desk.Good, Desk.Mirrors, Idle, Passes;
    var m := Next(env, l, call);
    var inputs := CallDrives(env, l, call);
    NextLogged(env, l, call);
    OrderTracking.RunKeeps(env, l.desk, inputs);
    if l.state == Booting {
      InputsKeepIdle(env, l.desk, inputs);
      IdleMirrors(m.desk);
    } else {
      BootsOnce(env, l, call);
    }
  }

  lemma IdleMirrors(d: Desk.DeskState)
    requires Idle(d)
    ensures Desk.Mirrors(d)
  {
  }

  lemma FreshIsReady(breakers: seq<Breaker>)
    ensures Ready(InitialLoop(breakers, Desk.FRESH_DESK))
  {
    InitialLogged(breakers, Desk.FRESH_DESK);
    OrderTracking.FreshIsSound(Desk.Env(OrderTracking.StandingStill, FillEngines.Immediate("")), false);
  }

  /** No intent gets past the check while the system is BOOTING; in particular if none is made before the start. */
  ghost predicate NothingPlacedEarly(env: Desk.Env, l: LoopState, calls: seq<Call>) {
    forall k :: 0 <= k < |calls| && Run(env, l, calls[..k]).state == Booting ==>
        !Passes(env, Run(env, l, calls[..k]), calls[k])
  }

  /**
    On any clock: every state the loop reaches from a fresh desk without placing an order before the
    start is wired and chained, and its order manager mirrors the venue.
   */
  lemma {:induction false} ReachableReady(env: Desk.Env, breakers: seq<Breaker>, calls: seq<Call>)
    requires env.engine.Sane() && forall k :: 0 <= k < |calls| ==> CallOk(calls[k])
    requires NothingPlacedEarly(env, InitialLoop(breakers, Desk.FRESH_DESK), calls)
    ensures Ready(Run(env, InitialLoop(breakers, Desk.FRESH_DESK), calls))
  {
    hide Next, Ready, Passes;
    var start := InitialLoop(breakers, Desk.FRESH_DESK);
    if |calls| == 0 {
      FreshIsReady(breakers);
    } else {
      var before := calls[..|calls| - 1];
      EarlierPrefix(env, start, calls, |calls| - 1);
      ReachableReady(env, breakers, before);
      CallKeepsReady(env, Run(env, start, before), calls[|calls| - 1]);
    }
  }

  lemma EarlierPrefix(env: Desk.Env, l: LoopState, calls: seq<Call>, n: nat)
    requires n <= |calls| && NothingPlacedEarly(env, l, calls)
    ensures NothingPlacedEarly(env, l, calls[..n])
  {
    hide Run, Passes;
    forall k | 0 <= k < n && Run(env, l, calls[..n][..k]).state == Booting
      ensures !Passes(env, Run(env, l, calls[..n][..k]), calls[..n][k])
    {
      assert calls[..n][..k] == calls[..k];
    }
  }

  // ----- Orders placed before the start

  lemma {:induction false} CallKeepsSound(env: Desk.Env, l: LoopState, call: Call, strict: bool)
    requires Desk.Monotone(env.clock, strict) && env.engine.Sane() && CallOk(call) && Desk.Sound(env, l.desk, strict)
    ensures Desk.Sound(env, Next(env, l, call).desk, strict)
  {
    hide Next, Desk.Run, Desk.Sound, Passes;
    var inputs := CallDrives(env, l, call);
    OrderTracking.RunRows(env, l.desk, inputs, strict);
  }

  lemma {:induction false} ReachableSound(env: Desk.Env, breakers: seq<Breaker>, calls: seq<Call>, strict: bool)
    requires Desk.Monotone(env.clock, strict) && env.engine.Sane() && forall k :: 0 <= k < |calls| ==> CallOk(calls[k])
    ensures Desk.Sound(env, Run(env, InitialLoop(breakers, Desk.FRESH_DESK), calls).desk, strict)
  {
    hide Next, Desk.Sound;
    if |calls| == 0 {
      OrderTracking.FreshIsSound(env, strict);
    } else {
      ReachableSound(env, breakers, calls[..|calls| - 1], strict);
      CallKeepsSound(env, Run(env, InitialLoop(breakers, Desk.FRESH_DESK), calls[..|calls| - 1]), calls[|calls| - 1],
          strict);
    }
  }

  lemma {:induction false} ReachableGood(env: Desk.Env, breakers: seq<Breaker>, calls: seq<Call>)
    requires env.engine.Sane() && forall k :: 0 <= k < |calls| ==> CallOk(calls[k])
    ensures var l := Run(env, InitialLoop(breakers, Desk.FRESH_DESK), calls); Desk.Good(l.desk) && Logged(l)
  {
    hide Next, Desk.Good, Logged, Desk.Run, Passes;
    var start := InitialLoop(breakers, Desk.FRESH_DESK);
    if |calls| == 0 {
      FreshIsReady(breakers);
    } else {
      var before := Run(env, start, calls[..|calls| - 1]);
      ReachableGood(env, breakers, calls[..|calls| - 1]);
      NextLogged(env, before, calls[|calls| - 1]);
      var inputs := CallDrives(env, before, calls[|calls| - 1]);
      OrderTracking.RunKeeps(env, before.desk, inputs);
    }
  }

  /**
    If orders were placed before the start: a start that restores leaves a cache that mirrors the
    venue exactly if the journal reads back the open orders; on a clock that does not go backwards,
    exactly if no order is tied with its SUBMITTED row.
   */
  lemma {:induction false} StartMirrorsIff(env: Desk.Env, breakers: seq<Breaker>, calls: seq<Call>,
      outcome: StartOutcome)
    requires env.engine.Sane() && forall k :: 0 <= k < |calls| ==> CallOk(calls[k])
    requires Run(env, InitialLoop(breakers, Desk.FRESH_DESK), calls).state == Booting
    requires outcome == ReconciliationFails || outcome == Succeeds
    ensures var l := Run(env, InitialLoop(breakers, Desk.FRESH_DESK), calls);
            && (Desk.Mirrors(StartUp(l, outcome).desk) <==> Journal.ReadLatest(l.desk.rows) == l.desk.venue.open)
            && (Desk.Monotone(env.clock, false) ==>
                  (Desk.Mirrors(StartUp(l, outcome).desk)
                   <==> forall k :: k in l.desk.venue.all ==> !OrderTracking.Tied(l.desk, k)))
  {
    hide Run, Desk.Good, Desk.Sound, Journal.ReadLatest, Desk.Mirrors, OrderTracking.Tied;
    var l := Run(env, InitialLoop(breakers, Desk.FRESH_DESK), calls);
    ReachableGood(env, breakers, calls);
    OrderTracking.RestartMirrorsIff(l.desk);
    StartRestores(l, outcome);
    if Desk.Monotone(env.clock, false) {
      ReachableSound(env, breakers, calls, false);
      OrderTracking.RecoversUnlessTied(env, l.desk);
    }
  }

  lemma StartRestores(l: LoopState, outcome: StartOutcome)
    requires Logged(l) && l.state == Booting && (outcome == ReconciliationFails || outcome == Succeeds)
    ensures Desk.Mirrors(StartUp(l, outcome).desk) <==> Desk.Mirrors(Desk.Restart(l.desk))
  {
    hide Deliver, Journal.ReadLatest;
  }

  /** On a strict clock no order is ever tied, so orders placed before the start do no harm. */
  lemma {:induction false} StrictClockReady(env: Desk.Env, breakers: seq<Breaker>, calls: seq<Call>)
    requires Desk.Monotone(env.clock, true) && env.engine.Sane() && forall k :: 0 <= k < |calls| ==> CallOk(calls[k])
    ensures var l := Run(env, InitialLoop(breakers, Desk.FRESH_DESK), calls); DeskReady(l.desk) && Logged(l)
  {
    hide Next, Logged, Desk.Run, Desk.Good, Desk.Mirrors, Desk.Sound, Passes;
    var start := InitialLoop(breakers, Desk.FRESH_DESK);
    ReachableGood(env, breakers, calls);
    if |calls| == 0 {
      FreshIsReady(breakers);
    } else {
      var before := Run(env, start, calls[..|calls| - 1]);
      StrictClockReady(env, breakers, calls[..|calls| - 1]);
      ReachableSound(env, breakers, calls[..|calls| - 1], true);
      var inputs := CallDrives(env, before, calls[|calls| - 1]);
      StrictRunMirrors(env, before.desk, inputs);
    }
  }

  lemma {:induction false} StrictRunMirrors(env: Desk.Env, d: Desk.DeskState, inputs: seq<Desk.Input>)
    requires Desk.Monotone(env.clock, true) && Desk.Sound(env, d, true) && Desk.Mirrors(d) && env.engine.Sane()
    requires forall i :: 0 <= i < |inputs| ==> Desk.InputOk(inputs[i])
    ensures Desk.Sound(env, Desk.Run(env, d, inputs), true) && Desk.Mirrors(Desk.Run(env, d, inputs))
  {
    hide Desk.Next, Desk.Sound, Desk.Mirrors;
    if |inputs| > 0 {
      StrictRunMirrors(env, d, inputs[..|inputs| - 1]);
      OrderTracking.StrictNextMirrors(env, Desk.Run(env, d, inputs[..|inputs| - 1]), inputs[|inputs| - 1]);
    }
  }
}
