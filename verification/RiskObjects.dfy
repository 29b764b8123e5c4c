/**
  The objects of the risk loop: the three stateful breakers, and the system that ties supervisor,
  event bus, risk manager and executor to the order manager.
 */
module RiskObjects {
  import opened Domain
  import opened Breakers
  import opened RiskLoop
  import opened PaperTrading
  import Desk
  import RiskReactions

  // ----- Breakers

  class DrawdownBreaker {
    const name: string
    const action: Severity
    const config: DrawdownConfig
    var history: seq<Observation>
    var latched: bool

    constructor (name: string, action: Severity, config: DrawdownConfig)
      ensures AsBreaker() == Drawdown(name, action, config, DRAWDOWN_START)
    {
      this.name, this.action, this.config := name, action, config;
      history, latched := [], false;
    }

    function AsBreaker(): Breaker
      reads this
    {
      Drawdown(name, action, config, DrawdownState(history, latched))
    }

    method Evaluate(context: Context) returns (trigger: Option<Severity>)
      modifies this
      ensures Verdict(AsBreaker(), trigger) == RiskLoop.Evaluate(old(AsBreaker()), context)
    {
      hide Since, Peak, RateTrips, PruneErrors, EvaluateRate;
      if latched {
        return Some(action);
      }
      var equity := context.total;
      history := history + [Observation(context.now, equity)];
      RecordedKept(old(history), context.now, equity, config.window);
      history := Since(history, SeenAt, context.now - config.window);
      assert history == Recorded(config, old(history), context.now, equity);
      var peak := Peak(history);
      if peak <= 0.0 {
        return None;
      }
      var drawdown := (peak - equity) / peak;
      if drawdown > config.threshold {
        latched := true;
        return Some(action);
      }
      return None;
    }

    method OnStateChange(t: Transition)
      modifies this
      ensures AsBreaker() == Hear(old(AsBreaker()), StateChanged(t))
    {
      if t.before == Quarantined && t.after == Reconciling {
        latched := false;
        history := [];
      }
    }
  }

  class RateLimitBreaker {
    const name: string
    const action: Severity
    const config: RateConfig
    const exceptionMatch: string
    var errors: seq<Time>
    var trippedUntil: Option<Time>

    constructor (name: string, action: Severity, config: RateConfig, exceptionMatch: string)
      ensures AsBreaker() == RateLimit(name, action, config, exceptionMatch, RATE_START)
    {
      this.name, this.action, this.config, this.exceptionMatch := name, action, config, exceptionMatch;
      errors, trippedUntil := [], None;
    }

    function AsBreaker(): Breaker
      reads this
    {
      RateLimit(name, action, config, exceptionMatch, RateState(errors, trippedUntil))
    }

    method OnError(error: ErrorOccurred)
      modifies this
      ensures AsBreaker() == Hear(old(AsBreaker()), Errored(error))
    {
      if Contains(error.exceptionType, exceptionMatch) {
        errors := errors + [error.timestamp];
      }
    }

    method Evaluate(context: Context) returns (trigger: Option<Severity>)
      modifies this
      ensures Verdict(AsBreaker(), trigger) == RiskLoop.Evaluate(old(AsBreaker()), context)
    {
      if trippedUntil.Some? {
        if context.now < trippedUntil.value {
          return Some(action);
        }
        trippedUntil := None;
        errors := [];
      }
      errors := Since(errors, Itself, context.now - config.window);
      if |errors| >= config.threshold {
        trippedUntil := Some(context.now + config.cooldown);
        return Some(action);
      }
      return None;
    }
  }

  class ConsecutiveErrorBreaker {
    const name: string
    const action: Severity
    const config: WindowConfig
    const components: Option<set<string>>
    var errors: seq<Time>

    constructor (name: string, action: Severity, config: WindowConfig, components: Option<set<string>>)
      ensures AsBreaker() == ErrorWindow(name, action, config, components, [])
    {
      this.name, this.action, this.config, this.components := name, action, config, components;
      errors := [];
    }

    function AsBreaker(): Breaker
      reads this
    {
      ErrorWindow(name, action, config, components, errors)
    }

    method OnError(error: ErrorOccurred)
      modifies this
      ensures AsBreaker() == Hear(old(AsBreaker()), Errored(error))
    {
      if components.None? || error.component in components.value {
        errors := errors + [error.timestamp];
      }
    }

    method Evaluate(context: Context) returns (trigger: Option<Severity>)
      modifies this
      ensures Verdict(AsBreaker(), trigger) == RiskLoop.Evaluate(old(AsBreaker()), context)
    {
      errors := Since(errors, Itself, context.now - config.window);
      if |errors| >= config.threshold {
        return Some(action);
      }
      return None;
    }
  }

  // ----- The event bus

  /** Its lifecycle; the dispatch loops are in `TradingSystem`, whose methods are the callbacks. */
  class InMemoryEventBus {
    var subs: seq<Subscription>
    var started: bool
    var stopped: bool

    constructor ()
      ensures AsBus() == Bus([], false, false)
    {
      subs, started, stopped := [], false, false;
    }

    function AsBus(): Bus
      reads this
    {
      Bus(subs, started, stopped)
    }

    /** Raises, and registers nothing, once the bus is stopped. */
    method Subscribe(subscription: Subscription) returns (raised: bool)
      modifies this
      ensures raised == old(stopped)
      ensures AsBus() == old(AsBus()).(subs := if raised then old(subs) else old(subs) + [subscription])
    {
      if stopped {
        return true;
      }
      subs := subs + [subscription];
      return false;
    }

    /** Raises once the bus is stopped: a stopped bus never comes up again. */
    method Start() returns (raised: bool)
      modifies this
      ensures raised == old(stopped)
      ensures AsBus() == old(AsBus()).(started := old(started) || !raised)
      ensures AsBus().Up() <==> !old(stopped)
    {
      if stopped {
        return true;
      }
      started := true;
      return false;
    }

    method Stop()
      modifies this
      ensures AsBus() == Bus(old(subs), false, true)
    {
      started, stopped := false, true;
    }
  }

  // ----- The system

  /**
    Supervisor, event bus, risk manager and executor over one order manager.  The breakers are
    held by value, in the order they were registered.
   */
  class TradingSystem {
    const oms: DefaultOrderManager
    const bus: InMemoryEventBus
    var state: SystemState
    var log: seq<Transition>
    var busRunning: bool
    var ticking: bool
    var breakers: seq<Breaker>

    /** Every breaker subscribes for itself, in the order they are built. */
    constructor (oms: DefaultOrderManager, breakers: seq<Breaker>)
      ensures this.oms == oms && fresh(bus)
      ensures View() == InitialLoop(breakers, oms.View())
    {
      this.oms, this.breakers := oms, breakers;
      state, log, busRunning, ticking := Booting, [], false, false;
      bus := new InMemoryEventBus();
      new;
      for i := 0 to |breakers|
        invariant state == Booting && log == [] && !busRunning && !ticking && this.breakers == breakers
        invariant fresh(bus) && bus.AsBus() == Bus(Wiring(breakers[..i]), false, false)
      {
        assert breakers[..i + 1][..i] == breakers[..i];
        var own := OwnSubscription(breakers[i], i);
        if own != [] {
          var _ := bus.Subscribe(own[0]);
        }
        assert Wiring(breakers[..i]) + own == bus.subs;
      }
      assert breakers[..|breakers|] == breakers;
    }

    ghost function View(): LoopState
      reads this, bus, oms, oms.venue, oms.journal, oms.clock
    {
      LoopState(state, log, bus.AsBus(), busRunning, ticking, breakers, oms.View())
    }

    /** The event log entry, then the callbacks of `bus.publish`, one subscriber after the other. */
    method MoveTo(target: SystemState, reason: Reason)
      modifies this, bus, oms.clock
      ensures View() == RiskLoop.MoveTo(old(View()), target, reason)
    {
      var t := Transition(state, target, reason);
      var _ := oms.clock.Now();
      state := target;
      log := log + [t];
      if busRunning {
        PublishToBreakers(StateChanged(t));
      }
    }

    method PublishToBreakers(e: Event)
      modifies this`breakers
      ensures View() == Notify(old(View()), e)
    {
      hide Hear, Deliver, Matching;
      var subs := bus.subs;
      ghost var was := breakers;
      DeliverNone(was, subs[..0], KindOf(e), e);
      for i := 0 to |subs|
        invariant breakers == Deliver(was, Matching(subs[..i], KindOf(e)), e)
      {
        var sub := subs[i];
        MatchingNext(subs, i, KindOf(e));
        if sub.kind == KindOf(e) {
          DeliverNextSub(was, Matching(subs[..i], KindOf(e)), sub.subscriber, e);
          if sub.subscriber.BreakerAt? && 0 <= sub.subscriber.index < |breakers| {
            var j := sub.subscriber.index;
            breakers := breakers[j := Hear(breakers[j], e)];
          }
        }
      }
      assert subs[..|subs|] == subs;
    }

    method Start(outcome: StartOutcome)
      requires oms.Subscribed()
      modifies this, bus, oms, oms.clock
      ensures View() == StartUp(old(View()), outcome)
    {
      hide RiskLoop.MoveTo, Desk.Restart;
      if state != Booting {
        return;
      }
      if outcome == PersistenceFails {
        return;
      }
      var down := bus.Start();
      if down {
        return;
      }
      busRunning := true;
      var _ := bus.Subscribe(Subscription(OnTripped, Supervisor));
      MoveTo(Reconciling, ComponentsStarted);
      if outcome == RestoreFails {
        return;
      }
      oms.Start();
      if outcome == ReconciliationFails {
        return;
      }
      MoveTo(Running, ReconciliationComplete);
      ticking := true;
    }

    method Stop(drain: bool)
      requires oms.Subscribed()
      modifies this, bus, oms, oms.venue, oms.journal, oms.clock
      ensures oms.Subscribed()
      ensures View() == ShutDown(oms.Setting(), old(View()), drain)
    {
      hide Desk.CancelAll;
      if state == Stopped || state == Draining {
        return;
      }
      ticking := false;
      MoveTo(Draining, Shutdown(drain));
      if drain {
        var _ := oms.CancelAll(None);
      }
      busRunning := false;
      bus.Stop();
      MoveTo(Stopped, ShutdownComplete);
    }

    method EnterQuarantine(text: string)
      requires oms.Subscribed()
      modifies this, bus, oms, oms.venue, oms.journal, oms.clock
      ensures oms.Subscribed()
      ensures View() == RiskLoop.EnterQuarantine(oms.Setting(), old(View()), text)
    {
      hide Desk.CancelAll;
      if state != Running {
        return;
      }
      var _ := oms.CancelAll(None);
      MoveTo(Quarantined, Breach(text));
      var _ := oms.clock.Now();
    }

    method Acknowledge(reconciles: bool)
      modifies this, bus, oms.clock
      ensures View() == RiskLoop.Acknowledge(old(View()), reconciles)
    {
      if state != Quarantined {
        return;
      }
      MoveTo(Reconciling, HumanAck);
      if !reconciles {
        return;
      }
      MoveTo(Running, ReconciledAfterAck);
    }

    method OnBreakerTripped(name: string, action: Severity)
      requires oms.Subscribed()
      modifies this, bus, oms, oms.venue, oms.journal, oms.clock
      ensures oms.Subscribed()
      ensures View() == OnTrip(oms.Setting(), old(View()), name, action)
    {
      hide Desk.CancelAll, RiskLoop.EnterQuarantine;
      match action
      case RejectNew =>
      case CancelAll => var _ := oms.CancelAll(None);
      case Quarantine => EnterQuarantine(name);
      case Flatten =>
        var _ := oms.CancelAll(None);
        EnterQuarantine(name);
    }

    method PublishTrip(name: string, action: Severity)
      requires oms.Subscribed()
      modifies this, bus, oms, oms.venue, oms.journal, oms.clock
      ensures oms.Subscribed()
      ensures View() == RiskLoop.PublishTrip(oms.Setting(), old(View()), name, action)
    {
      hide OnTrip, Matching, DeliverTrip;
      var _ := oms.clock.Now();
      ghost var start := View();
      var subs := bus.subs;
      DeliverTripNone(oms.Setting(), start, subs[..0], name, action);
      for i := 0 to |subs|
        invariant oms.Subscribed()
        invariant View() == DeliverTrip(oms.Setting(), start, Matching(subs[..i], OnTripped), name, action)
      {
        MatchingNext(subs, i, OnTripped);
        if subs[i].kind == OnTripped {
          DeliverTripNext(oms.Setting(), start, Matching(subs[..i], OnTripped), subs[i].subscriber, name, action);
          if subs[i].subscriber.Supervisor? {
            OnBreakerTripped(name, action);
          }
        }
      }
      assert subs[..|subs|] == subs;
    }

    method Tick(total: real)
      requires oms.Subscribed()
      modifies this, bus, oms, oms.venue, oms.journal, oms.clock
      ensures oms.Subscribed()
      ensures View() == RiskLoop.Tick(oms.Setting(), old(View()), total)
    {
      hide TickOne;
      var orders := Desk.Working(oms.orders);
      var now := oms.clock.Now();
      var context := Context(now, total, orders);
      ghost var start, env := View(), oms.Setting();
      var n, i, raised := |breakers|, 0, false;
      while i < n && !raised
        invariant 0 <= i <= n == |breakers| && oms.Subscribed()
        invariant oms.Setting() == env
        invariant TickUpTo(env, start, context, i) == Ticking(View(), raised)
        decreases n - i, if raised then 0 else 1
      {
        ghost var before := View();
        raised := AskOne(i, context);
        assert Ticking(View(), raised) == TickOne(env, before, context, i);
        i := i + 1;
      }
      TickRaisedStays(env, start, context, i, n);
    }

    /** One iteration of `tick`; publishing on a bus that is down raises and ends the loop. */
    method AskOne(i: int, context: Context) returns (raised: bool)
      requires oms.Subscribed() && 0 <= i < |breakers|
      modifies this, bus, oms, oms.venue, oms.journal, oms.clock
      ensures oms.Subscribed() && |breakers| == old(|breakers|)
      ensures Ticking(View(), raised) == TickOne(oms.Setting(), old(View()), context, i)
    {
      hide RiskLoop.Evaluate, RiskLoop.PublishTrip;
      var verdict := RiskLoop.Evaluate(breakers[i], context);
      breakers := breakers[i := verdict.next];
      if verdict.trigger.None? {
        return false;
      }
      if !bus.started || bus.stopped {
        var _ := oms.clock.Now();
        return true;
      }
      TripKeepsLength(oms.Setting(), View(), verdict.next.name, verdict.trigger.value);
      PublishTrip(verdict.next.name, verdict.trigger.value);
      return false;
    }

    method SubmitIntent(total: real, intent: TradeIntent, cid: string) returns (result: SubmitResult)
      requires oms.Subscribed()
      modifies this, bus, oms, oms.venue, oms.journal, oms.clock
      ensures oms.Subscribed()
      ensures Submitting(View(), result) == RiskLoop.SubmitIntent(oms.Setting(), old(View()), total, intent, cid)
    {
      hide Desk.Submit;
      var rejectedBy := Check(total);
      if rejectedBy.Some? {
        return RiskRejected(rejectedBy.value);
      }
      var submission := oms.Submit(intent, cid);
      return SubmitResult.Submitted(submission.orderId, submission.clientOrderId);
    }

    /** `DefaultRiskManager.check`: the first breaker that trips rejects, and ends the asking. */
    method Check(total: real) returns (rejectedBy: Option<string>)
      modifies this, bus, oms.clock
      ensures var checked := CheckUpTo(old(breakers), ContextOf(oms.Setting(), old(View()), total), old(|breakers|));
              && rejectedBy == checked.rejectedBy
              && View() == ReadClock(old(View())).(breakers := checked.breakers)
    {
      hide RiskLoop.Evaluate, Desk.Working;
      var orders := Desk.Working(oms.orders);
      var now := oms.clock.Now();
      var context := Context(now, total, orders);
      ghost var start := View();
      var n := |breakers|;
      var i := 0;
      rejectedBy := None;
      while i < n && rejectedBy.None?
        invariant 0 <= i <= n == |breakers|
        invariant View() == start.(breakers := breakers)
        invariant CheckUpTo(start.breakers, context, i) == Checking(breakers, rejectedBy)
        decreases n - i, if rejectedBy.None? then 1 else 0
      {
        var verdict := RiskLoop.Evaluate(breakers[i], context);
        breakers := breakers[i := verdict.next];
        if verdict.trigger.Some? {
          rejectedBy := Some(verdict.next.name);
        }
        i := i + 1;
      }
      CheckRejectedStays(start.breakers, context, i, n);
    }

    /** An `ErrorOccurred` published by any component; on a bus that is down that raises. */
    method PublishError(error: ErrorOccurred)
      modifies this
      ensures View() == (if old(bus.AsBus()).Up() then Notify(old(View()), Errored(error)) else old(View()))
    {
      if !bus.started || bus.stopped {
        return;
      }
      PublishToBreakers(Errored(error));
    }
  }

  lemma MatchingNext(subs: seq<Subscription>, i: int, kind: EventKind)
    requires 0 <= i < |subs|
    ensures Matching(subs[..i + 1], kind)
            == if subs[i].kind == kind then Matching(subs[..i], kind) + [subs[i].subscriber]
                else Matching(subs[..i], kind)
  {
    assert subs[..i + 1][..i] == subs[..i];
    assert Matching(subs[..i], kind) + [] == Matching(subs[..i], kind);
  }

  lemma DeliverNone(breakers: seq<Breaker>, subs: seq<Subscription>, kind: EventKind, e: Event)
    requires subs == []
    ensures Deliver(breakers, Matching(subs, kind), e) == breakers
  {
  }

  lemma DeliverNextSub(breakers: seq<Breaker>, to: seq<Subscriber>, next: Subscriber, e: Event)
    ensures var heard := Deliver(breakers, to, e);
            Deliver(breakers, to + [next], e)
            == if next.BreakerAt? && 0 <= next.index < |heard| then heard[next.index := Hear(heard[next.index], e)]
                else heard
  {
    assert (to + [next])[..|to|] == to;
  }

  lemma DeliverTripNone(env: Desk.Env, l: LoopState, subs: seq<Subscription>, name: string, action: Severity)
    requires subs == []
    ensures DeliverTrip(env, l, Matching(subs, OnTripped), name, action) == l
  {
  }

  lemma DeliverTripNext(env: Desk.Env, l: LoopState, to: seq<Subscriber>, next: Subscriber, name: string,
      action: Severity)
    ensures var before := DeliverTrip(env, l, to, name, action);
            DeliverTrip(env, l, to + [next], name, action)
            == if next.Supervisor? then OnTrip(env, before, name, action) else before
  {
    assert (to + [next])[..|to|] == to;
  }

  lemma {:induction false} TickRaisedStays(env: Desk.Env, l: LoopState, c: Context, i: nat, n: nat)
    requires i <= n && (i == n || TickUpTo(env, l, c, i).raised)
    ensures TickUpTo(env, l, c, n) == TickUpTo(env, l, c, i)
  {
    hide TickOne;
    if i < n {
      TickRaisedStays(env, l, c, i, n - 1);
    }
  }

  lemma {:induction false} CheckRejectedStays(breakers: seq<Breaker>, c: Context, i: nat, n: nat)
    requires i <= n <= |breakers| && (i == n || CheckUpTo(breakers, c, i).rejectedBy.Some?)
    ensures CheckUpTo(breakers, c, n) == CheckUpTo(breakers, c, i)
  {
    hide RiskLoop.Evaluate;
    if i < n {
      CheckRejectedStays(breakers, c, i, n - 1);
    }
  }

  lemma TripKeepsLength(env: Desk.Env, l: LoopState, name: string, action: Severity)
    ensures RiskLoop.PublishTrip(env, l, name, action).breakers == l.breakers
  {
    RiskReactions.TripKeepsBreakers(env, ReadClock(l), Matching(l.bus.subs, OnTripped), name, action);
  }
}
