/**
  What the risk control loop guarantees over whole runs.
 */
module RiskSafety {
  import opened Domain
  import opened Breakers
  import opened RiskLoop
  import Desk
  import Journal
  import OrderTracking
  import Venue

  // ----- Deliveries

  /** An event no breaker reacts to changes nothing. */
  lemma {:induction false} DeliverIdle(breakers: seq<Breaker>, to: seq<Subscriber>, e: Event)
    requires forall i :: 0 <= i < |breakers| ==> Hear(breakers[i], e) == breakers[i]
    ensures Deliver(breakers, to, e) == breakers
  {
    if |to| > 0 {
      DeliverIdle(breakers, to[..|to| - 1], e);
    }
  }

  lemma {:induction false} DeliverLength(breakers: seq<Breaker>, to: seq<Subscriber>, e: Event)
    ensures |Deliver(breakers, to, e)| == |breakers|
  {
    if |to| > 0 {
      DeliverLength(breakers, to[..|to| - 1], e);
    }
  }

  /** Only the release of a quarantine makes a state change visible to breakers. */
  lemma MoveKeepsBreakers(l: LoopState, target: SystemState, reason: Reason)
    requires !IsRelease(Transition(l.state, target, reason))
    ensures MoveTo(l, target, reason).breakers == l.breakers
  {
    var e := StateChanged(Transition(l.state, target, reason));
    DeliverIdle(l.breakers, Matching(l.bus.subs, KindOf(e)), e);
  }

  /** The wiring of a list of breakers depends only on what kind each is. */
  predicate SameKind(a: Breaker, b: Breaker) {
    a.Drawdown? == b.Drawdown? && a.RateLimit? == b.RateLimit? && a.ErrorWindow? == b.ErrorWindow?
  }

  predicate SameKinds(a: seq<Breaker>, b: seq<Breaker>) {
    |a| == |b| && forall i :: 0 <= i < |a| ==> SameKind(a[i], b[i])
  }

  lemma {:induction false} SameWiring(a: seq<Breaker>, b: seq<Breaker>)
    requires SameKinds(a, b)
    ensures Wiring(a) == Wiring(b)
  {
    if |a| > 0 {
      SameWiring(a[..|a| - 1], b[..|b| - 1]);
    }
  }

  lemma {:induction false} DeliverSameKinds(breakers: seq<Breaker>, to: seq<Subscriber>, e: Event)
    ensures SameKinds(breakers, Deliver(breakers, to, e))
  {
    if |to| > 0 {
      DeliverSameKinds(breakers, to[..|to| - 1], e);
    }
  }

  lemma {:induction false} WiringHasNoTrips(breakers: seq<Breaker>)
    ensures Matching(Wiring(breakers), OnTripped) == []
  {
    if |breakers| > 0 {
      WiringHasNoTrips(breakers[..|breakers| - 1]);
      MatchingAppend(Wiring(breakers[..|breakers| - 1]), OwnSubscription(breakers[|breakers| - 1], |breakers| - 1),
          OnTripped);
    }
  }

  lemma MatchingAppend(subs: seq<Subscription>, own: seq<Subscription>, kind: EventKind)
    requires |own| <= 1
    ensures Matching(subs + own, kind)
            == Matching(subs, kind) + (if |own| == 1 && own[0].kind == kind then [own[0].subscriber] else [])
  {
    if |own| == 1 {
      assert (subs + own)[..|subs|] == subs;
    } else {
      assert subs + own == subs;
    }
  }

  /** The events a breaker registers for. */
  predicate Listens(b: Breaker, kind: EventKind) {
    match b
    case Drawdown(_, _, _, _) => kind == OnStateChanged
    case RateLimit(_, _, _, _, _) => kind == OnErrored
    case ErrorWindow(_, _, _, _, _) => kind == OnErrored
    case Other(_, _, _) => false
  }

  /**
    Delivered over the wiring, an event of any kind is heard exactly once by every breaker: twice
    would record an error twice.
   */
  lemma {:induction false} DeliverReaches(all: seq<Breaker>, n: int, e: Event, i: int)
    requires 0 <= n <= |all| && 0 <= i < |all|
    ensures var heard := Deliver(all, Matching(Wiring(all[..n]), KindOf(e)), e);
            |heard| == |all| && heard[i] == (if i < n then Hear(all[i], e) else all[i])
  {
    hide Wiring, Matching, Hear, Deliver, Listens;
    if n == 0 {
      NobodyWired(all, e);
    } else {
      var last, earlier := all[n - 1], Matching(Wiring(all[..n - 1]), KindOf(e));
      DeliverReaches(all, n - 1, e, i);
      DeliverReaches(all, n - 1, e, n - 1);
      WiredNext(all, n, KindOf(e));
      if Listens(last, KindOf(e)) {
        DeliverNext(all, earlier, n - 1, e);
      } else {
        Deaf(last, e);
        assert earlier + [] == earlier;
      }
    }
  }

  lemma NobodyWired(all: seq<Breaker>, e: Event)
    ensures Deliver(all, Matching(Wiring(all[..0]), KindOf(e)), e) == all
  {
  }

  lemma WiredNext(all: seq<Breaker>, n: int, kind: EventKind)
    requires 0 < n <= |all|
    ensures Matching(Wiring(all[..n]), kind)
            == Matching(Wiring(all[..n - 1]), kind) + (if Listens(all[n - 1], kind) then [BreakerAt(n - 1)] else [])
  {
    hide Matching;
    assert all[..n][..n - 1] == all[..n - 1] && all[..n][n - 1] == all[n - 1];
    MatchingAppend(Wiring(all[..n - 1]), OwnSubscription(all[n - 1], n - 1), kind);
  }

  lemma DeliverNext(all: seq<Breaker>, to: seq<Subscriber>, i: int, e: Event)
    requires 0 <= i < |Deliver(all, to, e)|
    ensures var heard := Deliver(all, to, e);
            Deliver(all, to + [BreakerAt(i)], e) == heard[i := Hear(heard[i], e)]
  {
    assert (to + [BreakerAt(i)])[..|to|] == to;
  }

  lemma Deaf(b: Breaker, e: Event)
    requires !Listens(b, KindOf(e))
    ensures Hear(b, e) == b
  {
  }

  // ----- Invariants of the loop

  predicate AtWork(s: SystemState) {
    s == Reconciling || s == Running || s == Quarantined
  }

  /** The bus serves the breakers, and the supervisor too from the moment the system started. */
  predicate Wired(l: LoopState) {
    var supervised := Wiring(l.breakers) + [Subscription(OnTripped, Supervisor)];
    && (l.bus.subs == Wiring(l.breakers) || l.bus.subs == supervised)
    && (l.busRunning ==> l.bus.Up())
    && (l.state == Booting ==> l.bus.subs == Wiring(l.breakers) && !l.bus.stopped && !l.busRunning)
    && (AtWork(l.state) ==> l.bus.subs == supervised && l.busRunning)
  }

  lemma WiredMove(l: LoopState, target: SystemState, reason: Reason)
    requires Wired(l.(state := target))
    ensures Wired(MoveTo(l, target, reason)) && SameKinds(l.breakers, MoveTo(l, target, reason).breakers)
  {
    var e := StateChanged(Transition(l.state, target, reason));
    DeliverSameKinds(l.breakers, Matching(l.bus.subs, KindOf(e)), e);
    SameWiring(l.breakers, MoveTo(l, target, reason).breakers);
  }

  lemma Rewired(l: LoopState, breakers: seq<Breaker>)
    requires Wired(l) && SameKinds(l.breakers, breakers)
    ensures Wired(l.(breakers := breakers))
  {
    SameWiring(l.breakers, breakers);
  }

  lemma SupervisorListens(l: LoopState)
    requires Wired(l) && AtWork(l.state)
    ensures Matching(l.bus.subs, OnTripped) == [Supervisor] && l.bus.Up()
  {
    WiringHasNoTrips(l.breakers);
    MatchingAppend(Wiring(l.breakers), [Subscription(OnTripped, Supervisor)], OnTripped);
  }

  // ----- The log

  /** The transitions the code makes, each with the reason it gives. */
  predicate CodeStep(t: Transition) {
    match t.reason
    case ComponentsStarted => t.before == Booting && t.after == Reconciling
    case ReconciliationComplete => t.before == Reconciling && t.after == Running
    case HumanAck => t.before == Quarantined && t.after == Reconciling
    case ReconciledAfterAck => t.before == Reconciling && t.after == Running
    case Breach(_) => t.before == Running && t.after == Quarantined
    case Shutdown(_) => (t.before == Booting || AtWork(t.before)) && t.after == Draining
    case ShutdownComplete => t.before == Draining && t.after == Stopped
  }

  /** The log leads from BOOTING to the current state in steps of the code. */
  predicate Chain(log: seq<Transition>, state: SystemState) {
    && (forall i :: 0 <= i < |log| ==> CodeStep(log[i]))
    && (forall i :: 0 < i < |log| ==> log[i - 1].after == log[i].before)
    && (if |log| == 0 then state == Booting else log[0].before == Booting && log[|log| - 1].after == state)
  }

  ghost predicate Logged(l: LoopState) {
    Chain(l.log, l.state) && l.state != Draining && Wired(l)
  }

  lemma ChainGrows(log: seq<Transition>, state: SystemState, t: Transition)
    requires Chain(log, state) && t.before == state && CodeStep(t)
    ensures Chain(log + [t], t.after)
  {
  }

  lemma QuarantineLogged(env: Desk.Env, l: LoopState, text: string)
    requires Logged(l)
    ensures Logged(EnterQuarantine(env, l, text))
  {
    if l.state == Running {
      var cancelled := CancelOrders(env, l);
      assert Wired(cancelled.(state := Quarantined));
      WiredMove(cancelled, Quarantined, Breach(text));
      ChainGrows(l.log, l.state, Transition(Running, Quarantined, Breach(text)));
    }
  }

  lemma {:induction false} TripLogged(env: Desk.Env, l: LoopState, to: seq<Subscriber>, name: string, action: Severity)
    requires Logged(l)
    ensures Logged(DeliverTrip(env, l, to, name, action))
  {
    hide Logged, OnTrip;
    if |to| > 0 {
      TripLogged(env, l, to[..|to| - 1], name, action);
      OnTripLogged(env, DeliverTrip(env, l, to[..|to| - 1], name, action), name, action);
    }
  }

  lemma OnTripLogged(env: Desk.Env, l: LoopState, name: string, action: Severity)
    requires Logged(l)
    ensures Logged(OnTrip(env, l, name, action))
  {
    hide Logged, EnterQuarantine, CancelOrders;
    QuarantineLogged(env, l, name);
    CancelLogged(env, l);
    QuarantineLogged(env, CancelOrders(env, l), name);
  }

  lemma CancelLogged(env: Desk.Env, l: LoopState)
    requires Logged(l)
    ensures Logged(CancelOrders(env, l))
  {
    hide Desk.CancelAll;
  }

  lemma {:induction false} TickLogged(env: Desk.Env, l: LoopState, c: Context, n: nat)
    requires Logged(l)
    ensures Logged(TickUpTo(env, l, c, n).loop)
  {
    hide Logged, TickOne;
    if n > 0 {
      TickLogged(env, l, c, n - 1);
      var before := TickUpTo(env, l, c, n - 1);
      if !before.raised && n - 1 < |before.loop.breakers| {
        TickOneLogged(env, before.loop, c, n - 1);
      }
    }
  }

  lemma TickOneLogged(env: Desk.Env, l: LoopState, c: Context, i: int)
    requires Logged(l) && 0 <= i < |l.breakers|
    ensures Logged(TickOne(env, l, c, i).loop)
  {
    hide Wired, Chain, DeliverTrip, CodeStep;
    var v := Evaluate(l.breakers[i], c);
    AskedKind(l.breakers[i], c);
    Rewired(l, l.breakers[i := v.next]);
    var e := l.(breakers := l.breakers[i := v.next]);
    ClockLogged(e);
    if v.trigger.Some? && e.bus.Up() {
      TripLogged(env, ReadClock(e), Matching(e.bus.subs, OnTripped), v.next.name, v.trigger.value);
    }
  }

  lemma AskedKind(b: Breaker, c: Context)
    ensures SameKind(b, Evaluate(b, c).next)
  {
  }

  lemma ClockLogged(l: LoopState)
    requires Logged(l)
    ensures Logged(ReadClock(l))
  {
  }

  lemma {:induction false} CheckKinds(breakers: seq<Breaker>, c: Context, n: nat)
    requires n <= |breakers|
    ensures SameKinds(breakers, CheckUpTo(breakers, c, n).breakers)
  {
    hide Evaluate;
    if n > 0 {
      CheckKinds(breakers, c, n - 1);
      AskedKind(CheckUpTo(breakers, c, n - 1).breakers[n - 1], c);
    }
  }

  lemma StartLogged(l: LoopState, outcome: StartOutcome)
    requires Logged(l)
    ensures Logged(StartUp(l, outcome))
  {
    if l.state == Booting && outcome != PersistenceFails {
      var subs := l.bus.subs + [Subscription(OnTripped, Supervisor)];
      var wired := l.(bus := Bus(subs, true, l.bus.stopped), busRunning := true);
      WiredMove(wired, Reconciling, ComponentsStarted);
      ChainGrows(l.log, Booting, Transition(Booting, Reconciling, ComponentsStarted));
      var reconciling := MoveTo(wired, Reconciling, ComponentsStarted);
      assert Logged(reconciling);
      var restored := reconciling.(desk := Desk.Restart(reconciling.desk));
      assert Logged(restored);
      WiredMove(restored, Running, ReconciliationComplete);
      ChainGrows(restored.log, Reconciling, Transition(Reconciling, Running, ReconciliationComplete));
    }
  }

  lemma StopLogged(env: Desk.Env, l: LoopState, drain: bool)
    requires Logged(l)
    ensures Logged(ShutDown(env, l, drain))
  {
    if l.state != Stopped {
      var draining := MoveTo(l.(ticking := false), Draining, Shutdown(drain));
      WiredMove(l.(ticking := false), Draining, Shutdown(drain));
      ChainGrows(l.log, l.state, Transition(l.state, Draining, Shutdown(drain)));
      var drained := if drain then CancelOrders(env, draining) else draining;
      var offline := drained.(busRunning := false, bus := Bus(l.bus.subs, false, true));
      WiredMove(offline, Stopped, ShutdownComplete);
      ChainGrows(draining.log, Draining, Transition(Draining, Stopped, ShutdownComplete));
    }
  }

  lemma AcknowledgeLogged(l: LoopState, reconciles: bool)
    requires Logged(l)
    ensures Logged(Acknowledge(l, reconciles))
  {
    if l.state == Quarantined {
      WiredMove(l, Reconciling, HumanAck);
      ChainGrows(l.log, l.state, Transition(Quarantined, Reconciling, HumanAck));
      var reconciling := MoveTo(l, Reconciling, HumanAck);
      WiredMove(reconciling, Running, ReconciledAfterAck);
      ChainGrows(reconciling.log, Reconciling, Transition(Reconciling, Running, ReconciledAfterAck));
    }
  }

  lemma {:induction false} NextLogged(env: Desk.Env, l: LoopState, c: Call)
    requires Logged(l)
    ensures Logged(Next(env, l, c))
  {
    hide Logged, StartUp, ShutDown, EnterQuarantine, Acknowledge, TickUpTo, CheckUpTo, Deliver, Desk.Submit;
    match c
    case Start(outcome) => StartLogged(l, outcome);
    case Stop(drain) => StopLogged(env, l, drain);
    case ManualQuarantine(text) => QuarantineLogged(env, l, text);
    case HumanAcknowledge(reconciles) => AcknowledgeLogged(l, reconciles);
    case RiskTick(total) =>
      ClockLogged(l);
      TickLogged(env, ReadClock(l), ContextOf(env, l, total), |l.breakers|);
    case Intent(total, intent, cid) =>
      var checked := CheckUpTo(l.breakers, ContextOf(env, l, total), |l.breakers|).breakers;
      CheckKinds(l.breakers, ContextOf(env, l, total), |l.breakers|);
      BreakersLogged(l, checked, ReadClock(l).desk);
      BreakersLogged(l, checked, Desk.Submit(env, ReadClock(l).desk, intent, cid));
    case ErrorReport(error) =>
      DeliverSameKinds(l.breakers, Matching(l.bus.subs, OnErrored), Errored(error));
      BreakersLogged(l, Deliver(l.breakers, Matching(l.bus.subs, OnErrored), Errored(error)), l.desk);
    case Market(input) =>
      SameKindsAlready(l.breakers);
      BreakersLogged(l, l.breakers, Desk.Next(env, l.desk, input));
  }

  lemma SameKindsAlready(breakers: seq<Breaker>)
    ensures SameKinds(breakers, breakers)
  {
  }

  lemma BreakersLogged(l: LoopState, breakers: seq<Breaker>, desk: Desk.DeskState)
    requires Logged(l) && SameKinds(l.breakers, breakers)
    ensures Logged(l.(breakers := breakers, desk := desk))
  {
    Rewired(l, breakers);
  }

  /** After a quarantine the chain can only come back to RUNNING through an acknowledgement. */
  lemma {:induction false} ReturnNeedsAck(log: seq<Transition>, state: SystemState, i: int, j: int)
    requires Chain(log, state) && 0 <= i < j < |log|
    requires log[i].after == Quarantined && log[j].after == Running
    ensures exists k :: i < k < j && log[k].reason == HumanAck
    decreases j - i
  {
    assert log[i].after == log[i + 1].before;
    assert CodeStep(log[i + 1]) && CodeStep(log[j]);
    if log[i + 1].reason == HumanAck {
      assert i < i + 1 < j;
    } else {
      StopsForGood(log, state, i + 1, j);
    }
  }

  /** Once draining, the log only goes to STOPPED. */
  lemma {:induction false} StopsForGood(log: seq<Transition>, state: SystemState, i: int, j: int)
    requires Chain(log, state) && 0 <= i <= j < |log| && log[i].after == Draining
    ensures log[j].after == Draining || log[j].after == Stopped
    ensures j <= i + 1
    decreases j
  {
    if j > i {
      StopsForGood(log, state, i, j - 1);
      assert log[j - 1].after == log[j].before && CodeStep(log[j]);
    }
  }

  /**
    Supervisor runs: whatever is called in whatever order, reconciliation failing or not, the log
    is a chain of the code's transitions from BOOTING to the current state; nothing follows
    STOPPED; and RUNNING after a quarantine comes after a logged acknowledgement.
   */
  lemma {:induction false} SupervisorRuns(env: Desk.Env, breakers: seq<Breaker>, desk: Desk.DeskState, calls: seq<Call>)
    ensures var l := Run(env, InitialLoop(breakers, desk), calls);
            && Logged(l)
            && (forall i :: 0 <= i < |l.log| && l.log[i].after == Stopped ==> i == |l.log| - 1)
            && (forall i, j :: 0 <= i < j < |l.log| && l.log[i].after == Quarantined && l.log[j].after == Running ==>
                  exists k :: i < k < j && l.log[k].reason == HumanAck)
  {
    hide Next, Logged;
    InitialLogged(breakers, desk);
    RunLogged(env, InitialLoop(breakers, desk), calls);
    var l := Run(env, InitialLoop(breakers, desk), calls);
    LoggedChain(l);
    forall i | 0 <= i < |l.log| - 1
      ensures l.log[i].after != Stopped
    {
      assert l.log[i + 1 - 1].after == l.log[i + 1].before;
      assert CodeStep(l.log[i + 1]);
    }
    forall i, j | 0 <= i < j < |l.log| && l.log[i].after == Quarantined && l.log[j].after == Running
      ensures exists k :: i < k < j && l.log[k].reason == HumanAck
    {
      ReturnNeedsAck(l.log, l.state, i, j);
    }
  }

  lemma InitialLogged(breakers: seq<Breaker>, desk: Desk.DeskState)
    ensures Logged(InitialLoop(breakers, desk))
  {
  }

  lemma LoggedChain(l: LoopState)
    requires Logged(l)
    ensures Chain(l.log, l.state) && Wired(l)
  {
  }

  lemma {:induction false} RunLogged(env: Desk.Env, l: LoopState, calls: seq<Call>)
    requires Logged(l)
    ensures Logged(Run(env, l, calls))
  {
    hide Next, Logged;
    if |calls| > 0 {
      RunLogged(env, l, calls[..|calls| - 1]);
      NextLogged(env, Run(env, l, calls[..|calls| - 1]), calls[|calls| - 1]);
    }
  }

  /** The documented table of transitions. */
  predicate InTable(t: Transition) {
    match t.before
    case Booting => t.after == Reconciling
    case Reconciling => t.after == Running || t.after == Quarantined
    case Running => t.after == Quarantined || t.after == Draining || t.after == Stopped
    case Quarantined => t.after == Reconciling || t.after == Draining
    case Draining => t.after == Stopped
    case Stopped => false
  }

  /**
    The log against that table: the only steps any run takes outside it are from BOOTING and RECONCILING
    to DRAINING, and it never takes those from RECONCILING to QUARANTINE and from RUNNING to STOPPED.
   */
  lemma {:induction false} LogAgainstTable(env: Desk.Env, breakers: seq<Breaker>, desk: Desk.DeskState,
      calls: seq<Call>)
    ensures var log := Run(env, InitialLoop(breakers, desk), calls).log;
            forall i :: 0 <= i < |log| ==>
              && (InTable(log[i]) || (log[i].after == Draining
                   && (log[i].before == Booting || log[i].before == Reconciling)))
              && !(log[i].before == Reconciling && log[i].after == Quarantined)
              && !(log[i].before == Running && log[i].after == Stopped)
  {
    hide Run, Logged, Wired;
    InitialLogged(breakers, desk);
    RunLogged(env, InitialLoop(breakers, desk), calls);
    LoggedChain(Run(env, InitialLoop(breakers, desk), calls));
  }

  /** Runs that do take the two steps outside it: stopping at once, and after a start that failed. */
  lemma {:induction false} DrainsOutsideTable(env: Desk.Env, breakers: seq<Breaker>, desk: Desk.DeskState, drain: bool)
    ensures var never := Run(env, InitialLoop(breakers, desk), [Stop(drain)]);
            && |never.log| == 2 && never.state == Stopped
            && never.log[0] == Transition(Booting, Draining, Shutdown(drain))
    ensures var failed := Run(env, InitialLoop(breakers, desk), [Start(ReconciliationFails), Stop(drain)]);
            && |failed.log| == 3 && failed.state == Stopped
            && failed.log[1] == Transition(Reconciling, Draining, Shutdown(drain))
  {
    hide StartUp, ShutDown;
    var start := InitialLoop(breakers, desk);
    OneCall(env, start, Stop(drain));
    TwoCalls(env, start, Start(ReconciliationFails), Stop(drain));
    FailedStartLog(start);
    StopLog(env, start, drain);
    StopLog(env, StartUp(start, ReconciliationFails), drain);
  }

  lemma StopLog(env: Desk.Env, l: LoopState, drain: bool)
    requires l.state != Stopped && l.state != Draining
    ensures var m := ShutDown(env, l, drain);
            && m.state == Stopped
            && m.log == l.log + [Transition(l.state, Draining, Shutdown(drain)),
                                 Transition(Draining, Stopped, ShutdownComplete)]
  {
    hide Deliver, Desk.CancelAll;
    var first := Transition(l.state, Draining, Shutdown(drain));
    var second := Transition(Draining, Stopped, ShutdownComplete);
    assert l.log + [first] + [second] == l.log + [first, second];
  }

  lemma FailedStartLog(l: LoopState)
    requires l.state == Booting && !l.bus.stopped
    ensures var m := StartUp(l, ReconciliationFails);
            m.state == Reconciling && m.log == l.log + [Transition(Booting, Reconciling, ComponentsStarted)]
  {
    hide Deliver, Desk.Restart;
  }

  lemma OneCall(env: Desk.Env, l: LoopState, call: Call)
    ensures Run(env, l, [call]) == Next(env, l, call)
  {
    hide Next;
    assert [call][..0] == [];
  }

  lemma TwoCalls(env: Desk.Env, l: LoopState, first: Call, second: Call)
    ensures Run(env, l, [first, second]) == Next(env, Next(env, l, first), second)
  {
    hide Next;
    assert [first, second][..1] == [first];
    OneCall(env, l, first);
  }

  /**
    Nothing but stopping ever leaves RECONCILING, once a reconciliation has failed there.
   */
  lemma {:induction false} ReconcilingIsATrap(env: Desk.Env, l: LoopState, calls: seq<Call>)
    requires Logged(l) && (l.state == Reconciling || l.state == Stopped)
    ensures var m := Run(env, l, calls);
            && Logged(m)
            && (m.state == Reconciling || m.state == Stopped)
            && (m.state == Reconciling && l.state == Reconciling ==> m.log == l.log)
            && (l.state == Stopped ==> m.state == Stopped)
  {
    hide Next, Logged;
    if |calls| > 0 {
      var m := Run(env, l, calls[..|calls| - 1]);
      ReconcilingIsATrap(env, l, calls[..|calls| - 1]);
      NextLogged(env, m, calls[|calls| - 1]);
      TrapStep(env, m, calls[|calls| - 1]);
    }
  }

  lemma TrapStep(env: Desk.Env, l: LoopState, c: Call)
    requires l.state == Reconciling || l.state == Stopped
    ensures var m := Next(env, l, c);
            && (m.state == l.state || m.state == Stopped)
            && (m.state == Reconciling ==> m.log == l.log)
  {
    hide TickUpTo, CheckUpTo, Deliver, Desk.Submit, Desk.CancelAll;
    match c
    case RiskTick(total) => TickIdle(env, ReadClock(l), ContextOf(env, l, total), |l.breakers|);
    case _ =>
  }

  /**
    An acknowledgement whose reconciliation fails, and a start whose restore or reconciliation fails,
    leave the system in RECONCILING, and whatever is called afterwards it never runs again.
   */
  lemma {:induction false} FailureIsFinal(env: Desk.Env, l: LoopState, outcome: StartOutcome, calls: seq<Call>)
    requires Logged(l)
    ensures l.state == Quarantined ==>
              var failed := Acknowledge(l, false);
              failed.state == Reconciling && Run(env, failed, calls).state in {Reconciling, Stopped}
    ensures l.state == Booting && (outcome == RestoreFails || outcome == ReconciliationFails) ==>
              var failed := StartUp(l, outcome);
              failed.state == Reconciling && Run(env, failed, calls).state in {Reconciling, Stopped}
  {
    hide Run, Chain, Deliver;
    if l.state == Quarantined {
      AcknowledgeLogged(l, false);
      ReconcilingIsATrap(env, Acknowledge(l, false), calls);
    }
    if l.state == Booting && (outcome == RestoreFails || outcome == ReconciliationFails) {
      StartLogged(l, outcome);
      ReconcilingIsATrap(env, StartUp(l, outcome), calls);
    }
  }

  // ----- BOOTING

  /** A system that has left BOOTING never boots again. */
  lemma BootsOnce(env: Desk.Env, l: LoopState, c: Call)
    requires l.state != Booting
    ensures Next(env, l, c).state != Booting
  {
    hide TickUpTo, CheckUpTo, Deliver, Desk.Submit, Desk.CancelAll;
    match c
    case RiskTick(total) => TickStates(env, ReadClock(l), ContextOf(env, l, total), |l.breakers|);
    case _ =>
  }

  /** A tick stays in its state or ends in QUARANTINE. */
  lemma {:induction false} TickStates(env: Desk.Env, l: LoopState, c: Context, n: nat)
    ensures TickUpTo(env, l, c, n).loop.state in {l.state, Quarantined}
  {
    hide TickOne;
    if n > 0 {
      TickStates(env, l, c, n - 1);
      var before := TickUpTo(env, l, c, n - 1);
      if !before.raised && n - 1 < |before.loop.breakers| {
        TickOneStates(env, before.loop, c, n - 1);
      }
    }
  }

  lemma TickOneStates(env: Desk.Env, l: LoopState, c: Context, i: int)
    requires 0 <= i < |l.breakers|
    ensures TickOne(env, l, c, i).loop.state in {l.state, Quarantined}
  {
    hide Evaluate, DeliverTrip;
    var v := Evaluate(l.breakers[i], c);
    var e := l.(breakers := l.breakers[i := v.next]);
    if v.trigger.Some? {
      TripStates(env, ReadClock(e), Matching(e.bus.subs, OnTripped), v.next.name, v.trigger.value);
    }
  }

  lemma {:induction false} TripStates(env: Desk.Env, l: LoopState, to: seq<Subscriber>, name: string, action: Severity)
    ensures DeliverTrip(env, l, to, name, action).state in {l.state, Quarantined}
  {
    hide Desk.CancelAll, Deliver;
    if |to| > 0 {
      TripStates(env, l, to[..|to| - 1], name, action);
    }
  }

  /** Outside RUNNING a tick changes neither state nor log. */
  lemma {:induction false} TickIdle(env: Desk.Env, l: LoopState, c: Context, n: nat)
    requires l.state != Running
    ensures var t := TickUpTo(env, l, c, n).loop;
            t.state == l.state && t.log == l.log
  {
    hide TickOne;
    if n > 0 {
      TickIdle(env, l, c, n - 1);
      var before := TickUpTo(env, l, c, n - 1);
      if !before.raised && n - 1 < |before.loop.breakers| {
        TickOneIdle(env, before.loop, c, n - 1);
      }
    }
  }

  lemma TickOneIdle(env: Desk.Env, l: LoopState, c: Context, i: int)
    requires l.state != Running && 0 <= i < |l.breakers|
    ensures var t := TickOne(env, l, c, i).loop;
            t.state == l.state && t.log == l.log
  {
    hide Evaluate, DeliverTrip;
    var v := Evaluate(l.breakers[i], c);
    var e := l.(breakers := l.breakers[i := v.next]);
    if v.trigger.Some? {
      TripIdle(env, ReadClock(e), Matching(e.bus.subs, OnTripped), v.next.name, v.trigger.value);
    }
  }

  lemma {:induction false} TripIdle(env: Desk.Env, l: LoopState, to: seq<Subscriber>, name: string, action: Severity)
    requires l.state != Running
    ensures var t := DeliverTrip(env, l, to, name, action);
            t.state == l.state && t.log == l.log
  {
    hide Desk.CancelAll;
    if |to| > 0 {
      TripIdle(env, l, to[..|to| - 1], name, action);
    }
  }
}
