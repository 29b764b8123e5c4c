/**
  The risk control loop: breakers, risk manager, event bus, supervisor and executor, around the
  order desk.  Supervisor calls are atomic here, and their reconciliation may fail.
 */
module RiskLoop {
  import opened Domain
  import opened Breakers
  import Desk
  import Venue

  /** `TriggerAction`, weakest first. */
  datatype Severity = RejectNew | CancelAll | Quarantine | Flatten

  predicate Cancels(s: Severity) {
    s != RejectNew
  }

  predicate Quarantines(s: Severity) {
    s == Quarantine || s == Flatten
  }

  /** What breakers are shown: the time, the balance the position manager holds, the working orders. */
  datatype Context = Context(now: Time, total: real, openOrders: map<OrderId, Order>)

  datatype ErrorOccurred = ErrorOccurred(component: string, exceptionType: string, timestamp: Time)

  /**
    A breaker with its configuration and its state.  `Other` is any further breaker: what it
    answers may depend on the context and on how often it was asked.
   */
  datatype Breaker =
    | Drawdown(name: string, action: Severity, drawdownConfig: DrawdownConfig, drawdown: DrawdownState)
    | RateLimit(name: string, action: Severity, rateConfig: RateConfig, exceptionMatch: string, rate: RateState)
    | ErrorWindow(name: string, action: Severity, windowConfig: WindowConfig,
                  components: Option<set<string>>, errors: seq<Time>)
    | Other(name: string, answer: (nat, Context) -> Option<Severity>, asked: nat)

  datatype Verdict = Verdict(next: Breaker, trigger: Option<Severity>)

  /** `CircuitBreaker.evaluate`. */
  function Evaluate(b: Breaker, c: Context): Verdict {
    match b
    case Drawdown(_, action, config, s) =>
      var next := EvaluateDrawdown(config, s, c.now, c.total);
      Verdict(b.(drawdown := next), if next.latched then Some(action) else None)
    case RateLimit(_, action, config, _, s) =>
      Verdict(b.(rate := EvaluateRate(config, s, c.now)), if RateTrips(config, s, c.now) then Some(action) else None)
    case ErrorWindow(_, action, config, _, errors) =>
      var kept := PruneErrors(config, errors, c.now);
      Verdict(b.(errors := kept), if |kept| >= config.threshold then Some(action) else None)
    case Other(_, answer, asked) => Verdict(b.(asked := asked + 1), answer(asked, c))
  }

  // ----- Supervisor states and the event bus

  datatype SystemState = Booting | Reconciling | Running | Quarantined | Draining | Stopped

  datatype Reason =
    | ComponentsStarted | ReconciliationComplete | HumanAck | ReconciledAfterAck
    | Breach(text: string) | Shutdown(drain: bool) | ShutdownComplete

  datatype Transition = Transition(before: SystemState, after: SystemState, reason: Reason)

  datatype Event =
    | StateChanged(transition: Transition)
    | Errored(error: ErrorOccurred)
    | Tripped(name: string, action: Severity)

  datatype EventKind = OnStateChanged | OnErrored | OnTripped

  function KindOf(e: Event): EventKind {
    match e
    case StateChanged(_) => OnStateChanged
    case Errored(_) => OnErrored
    case Tripped(_, _) => OnTripped
  }

  datatype Subscriber = Supervisor | BreakerAt(index: int)

  datatype Subscription = Subscription(kind: EventKind, subscriber: Subscriber)

  datatype Bus = Bus(subs: seq<Subscription>, started: bool, stopped: bool)
  {
    /** `publish` does not raise. */
    predicate Up() {
      started && !stopped
    }
  }

  /** Subscribers of that kind, in the order they registered. */
  function Matching(subs: seq<Subscription>, kind: EventKind): seq<Subscriber> {
    if |subs| == 0 then []
    else
      var last := subs[|subs| - 1];
      Matching(subs[..|subs| - 1], kind) + (if last.kind == kind then [last.subscriber] else [])
  }

  /** What each breaker registers for when it is built. */
  function OwnSubscription(b: Breaker, index: int): seq<Subscription> {
    match b
    case Drawdown(_, _, _, _) => [Subscription(OnStateChanged, BreakerAt(index))]
    case RateLimit(_, _, _, _, _) => [Subscription(OnErrored, BreakerAt(index))]
    case ErrorWindow(_, _, _, _, _) => [Subscription(OnErrored, BreakerAt(index))]
    case Other(_, _, _) => []
  }

  function Wiring(breakers: seq<Breaker>): seq<Subscription> {
    if |breakers| == 0 then []
    else
      var last := |breakers| - 1;
      Wiring(breakers[..last]) + OwnSubscription(breakers[last], last)
  }

  predicate Contains(text: string, part: string) {
    |part| <= |text| && (text[..|part|] == part || (|text| > 0 && Contains(text[1..], part)))
  }

  /** A human acknowledged: the only transition a drawdown breaker reacts to. */
  predicate IsRelease(t: Transition) {
    t.before == Quarantined && t.after == Reconciling
  }

  /** The breakers' own callbacks: `_on_state_change` and `_on_error`. */
  function Hear(b: Breaker, e: Event): Breaker {
    match b
    case Drawdown(_, _, _, _) =>
      if e.StateChanged? && IsRelease(e.transition) then b.(drawdown := DRAWDOWN_START) else b
    case RateLimit(_, _, _, exceptionMatch, s) =>
      if e.Errored? && Contains(e.error.exceptionType, exceptionMatch)
      then b.(rate := RateError(s, e.error.timestamp)) else b
    case ErrorWindow(_, _, _, components, errors) =>
      if e.Errored? && (components.Some? ==> e.error.component in components.value)
      then b.(errors := errors + [e.error.timestamp]) else b
    case Other(_, _, _) => b
  }

  // ----- The loop as one value

  datatype LoopState = LoopState(
    state: SystemState, log: seq<Transition>, bus: Bus, busRunning: bool, ticking: bool,
    breakers: seq<Breaker>, desk: Desk.DeskState)

  function InitialLoop(breakers: seq<Breaker>, desk: Desk.DeskState): LoopState {
    LoopState(Booting, [], Bus(Wiring(breakers), false, false), false, false, breakers, desk)
  }

  /** Deliver an event to breakers, one subscriber after the other. */
  function Deliver(breakers: seq<Breaker>, to: seq<Subscriber>, e: Event): seq<Breaker> {
    if |to| == 0 then breakers
    else
      var heard := Deliver(breakers, to[..|to| - 1], e);
      var last := to[|to| - 1];
      if last.BreakerAt? && 0 <= last.index < |heard| then heard[last.index := Hear(heard[last.index], e)] else heard
  }

  /** `publish` of a state change or an error on a bus that is up. */
  function Notify(l: LoopState, e: Event): LoopState {
    l.(breakers := Deliver(l.breakers, Matching(l.bus.subs, KindOf(e)), e))
  }

  function ReadClock(l: LoopState): LoopState {
    l.(desk := l.desk.(ticks := l.desk.ticks + 1))
  }

  /** `_transition`: log the change, and publish it while the bus runs. */
  function MoveTo(l: LoopState, target: SystemState, reason: Reason): LoopState {
    var t := Transition(l.state, target, reason);
    var moved := ReadClock(l).(state := target, log := l.log + [t]);
    if l.busRunning then Notify(moved, StateChanged(t)) else moved
  }

  function CancelOrders(env: Desk.Env, l: LoopState): LoopState {
    l.(desk := Desk.CancelAll(env, l.desk, None))
  }

  /** `quarantine`; the last reading of the clock is the alert's timestamp. */
  function EnterQuarantine(env: Desk.Env, l: LoopState, text: string): LoopState {
    if l.state != Running then l else ReadClock(MoveTo(CancelOrders(env, l), Quarantined, Breach(text)))
  }

  /** `_on_breaker_tripped`. */
  function OnTrip(env: Desk.Env, l: LoopState, name: string, action: Severity): LoopState {
    match action
    case RejectNew => l
    case CancelAll => CancelOrders(env, l)
    case Quarantine => EnterQuarantine(env, l, name)
    case Flatten => EnterQuarantine(env, CancelOrders(env, l), name)
  }

  function DeliverTrip(env: Desk.Env, l: LoopState, to: seq<Subscriber>, name: string, action: Severity): LoopState {
    if |to| == 0 then l
    else
      var before := DeliverTrip(env, l, to[..|to| - 1], name, action);
      if to[|to| - 1].Supervisor? then OnTrip(env, before, name, action) else before
  }

  /** `publish` of a tripped breaker on a bus that is up. */
  function PublishTrip(env: Desk.Env, l: LoopState, name: string, action: Severity): LoopState {
    DeliverTrip(env, ReadClock(l), Matching(l.bus.subs, OnTripped), name, action)
  }

  function ContextOf(env: Desk.Env, l: LoopState, total: real): Context {
    Context(env.clock(l.desk.ticks), total, Desk.Working(l.desk.orders))
  }

  /** A tick that has dealt with some breakers; `raised` when publishing failed and it gave up. */
  datatype Ticking = Ticking(loop: LoopState, raised: bool)

  function TickOne(env: Desk.Env, l: LoopState, c: Context, i: int): Ticking
    requires 0 <= i < |l.breakers|
  {
    var v := Evaluate(l.breakers[i], c);
    var e := l.(breakers := l.breakers[i := v.next]);
    if v.trigger.None? then Ticking(e, false)
    else if !e.bus.Up() then Ticking(ReadClock(e), true)
    else Ticking(PublishTrip(env, e, v.next.name, v.trigger.value), false)
  }

  /** The first `n` iterations of the loop in `tick`. */
  function TickUpTo(env: Desk.Env, l: LoopState, c: Context, n: nat): Ticking {
    if n == 0 then Ticking(l, false)
    else
      var before := TickUpTo(env, l, c, n - 1);
      if before.raised || n - 1 >= |before.loop.breakers| then before
      else TickOne(env, before.loop, c, n - 1)
  }

  /** `DefaultRiskManager.tick`. */
  function Tick(env: Desk.Env, l: LoopState, total: real): LoopState {
    TickUpTo(env, ReadClock(l), ContextOf(env, l, total), |l.breakers|).loop
  }

  /** The breakers after `check` asked the first `n`, and who rejected, if one did. */
  datatype Checking = Checking(breakers: seq<Breaker>, rejectedBy: Option<string>)

  function CheckUpTo(breakers: seq<Breaker>, c: Context, n: nat): Checking
    requires n <= |breakers|
    ensures |CheckUpTo(breakers, c, n).breakers| == |breakers|
  {
    if n == 0 then Checking(breakers, None)
    else
      var before := CheckUpTo(breakers, c, n - 1);
      if before.rejectedBy.Some? then before
      else
        var v := Evaluate(before.breakers[n - 1], c);
        Checking(before.breakers[n - 1 := v.next], if v.trigger.Some? then Some(v.next.name) else None)
  }

  datatype SubmitResult = Submitted(orderId: OrderId, clientOrderId: string) | RiskRejected(breaker: string)

  datatype Submitting = Submitting(loop: LoopState, result: SubmitResult)

  /** `DefaultExecutor.submit_intent`: the risk check, then the order manager. */
  function SubmitIntent(env: Desk.Env, l: LoopState, total: real, intent: TradeIntent, cid: string): Submitting {
    var checked := CheckUpTo(l.breakers, ContextOf(env, l, total), |l.breakers|);
    var after := ReadClock(l).(breakers := checked.breakers);
    match checked.rejectedBy
    case Some(name) => Submitting(after, RiskRejected(name))
    case None =>
      var desk := Desk.Submit(env, after.desk, intent, cid);
      Submitting(after.(desk := desk), SubmitResult.Submitted(desk.venue.nextOid, cid))
  }

  /** How far `start` gets: a journal, restoring the order manager, or a call to the venue may raise. */
  datatype StartOutcome = PersistenceFails | RestoreFails | ReconciliationFails | Succeeds

  /** `start`; from any state but BOOTING, or on a bus once stopped, it raises and changes nothing. */
  function StartUp(l: LoopState, outcome: StartOutcome): LoopState {
    if l.state != Booting || outcome == PersistenceFails || l.bus.stopped then l
    else
      var subs := l.bus.subs + [Subscription(OnTripped, Supervisor)];
      var wired := l.(bus := Bus(subs, true, l.bus.stopped), busRunning := true);
      var reconciling := MoveTo(wired, Reconciling, ComponentsStarted);
      var restored := reconciling.(desk := Desk.Restart(reconciling.desk));
      if outcome == RestoreFails then reconciling
      else if outcome == ReconciliationFails then restored
      else MoveTo(restored, Running, ReconciliationComplete).(ticking := true)
  }

  /** `stop`. */
  function ShutDown(env: Desk.Env, l: LoopState, drain: bool): LoopState {
    if l.state == Stopped || l.state == Draining then l
    else
      var draining := MoveTo(l.(ticking := false), Draining, Shutdown(drain));
      var drained := if drain then CancelOrders(env, draining) else draining;
      MoveTo(drained.(busRunning := false, bus := Bus(l.bus.subs, false, true)), Stopped, ShutdownComplete)
  }

  /** `acknowledge`; outside QUARANTINE it raises and changes nothing. */
  function Acknowledge(l: LoopState, reconciles: bool): LoopState {
    if l.state != Quarantined then l
    else
      var reconciling := MoveTo(l, Reconciling, HumanAck);
      if reconciles then MoveTo(reconciling, Running, ReconciledAfterAck) else reconciling
  }

  // ----- Runs

  datatype Call =
    | Start(outcome: StartOutcome)
    | Stop(drain: bool)
    | ManualQuarantine(text: string)
    | HumanAcknowledge(reconciles: bool)
    | RiskTick(total: real)
    | Intent(total: real, intent: TradeIntent, cid: string)
    | ErrorReport(error: ErrorOccurred)
    | Market(input: Desk.Input)

  /** Orders reach the desk only through the executor. */
  predicate CallOk(c: Call) {
    match c
    case Intent(_, intent, cid) => Desk.InputOk(Desk.SubmitIn(intent, cid))
    case Market(input) => Desk.InputOk(input) && !input.SubmitIn? && !input.RestartIn?
    case _ => true
  }

  function Next(env: Desk.Env, l: LoopState, c: Call): LoopState {
    match c
    case Start(outcome) => StartUp(l, outcome)
    case Stop(drain) => ShutDown(env, l, drain)
    case ManualQuarantine(text) => EnterQuarantine(env, l, text)
    case HumanAcknowledge(reconciles) => Acknowledge(l, reconciles)
    case RiskTick(total) => Tick(env, l, total)
    case Intent(total, intent, cid) => SubmitIntent(env, l, total, intent, cid).loop
    case ErrorReport(error) => if l.bus.Up() then Notify(l, Errored(error)) else l
    case Market(input) => l.(desk := Desk.Next(env, l.desk, input))
  }

  function Run(env: Desk.Env, l: LoopState, calls: seq<Call>): LoopState {
    if |calls| == 0 then l else Next(env, Run(env, l, calls[..|calls| - 1]), calls[|calls| - 1])
  }
}
