/**
  How the risk loop reacts to tripped breakers: one tick realises the strongest reaction asked for,
  and a latched drawdown holds until a human acknowledges.
 */
module RiskReactions {
  import opened Domain
  import opened Breakers
  import opened RiskLoop
  import opened RiskDesk
  import opened RiskSafety
  import Desk
  import OrderTracking
  import Venue

  // ----- One tick

  /** Some breaker asked in this context answers with a reaction of that kind. */
  ghost predicate SomeTrigger(breakers: seq<Breaker>, c: Context, kind: Severity -> bool) {
    exists b :: b in breakers && Triggers(b, c, kind)
  }

  predicate Triggers(b: Breaker, c: Context, kind: Severity -> bool) {
    Evaluate(b, c).trigger.Some? && kind(Evaluate(b, c).trigger.value)
  }

  /** The same orders, positions and cache; only the clock was read. */
  predicate Untouched(d: Desk.DeskState, e: Desk.DeskState) {
    d.venue == e.venue && d.orders == e.orders && d.rows == e.rows && d.fills == e.fills
  }

  /** No order is working, neither at the venue nor in the order manager. */
  predicate NothingOpen(d: Desk.DeskState) {
    d.venue.open == map[] && Desk.Working(d.orders) == map[]
  }

  lemma CancelEmpties(env: Desk.Env, l: LoopState)
    requires DeskReady(l.desk)
    ensures var m := CancelOrders(env, l);
            m == l.(desk := m.desk) && DeskReady(m.desk) && NothingOpen(m.desk)
  {
    OrderTracking.CancelAllEmpties(env, l.desk);
    Desk.CancelEachKeeps(env, l.desk, Venue.IdsOn(Desk.Working(l.desk.orders), None));
  }

  /** What a tick has done after asking some of the breakers. */
  ghost predicate TickedTo(start: LoopState, l: LoopState, quarantines: bool, cancels: bool) {
    && l.state == (if quarantines then Quarantined else Running)
    && l.bus == start.bus && l.busRunning == start.busRunning
    && DeskReady(l.desk)
    && (if cancels then NothingOpen(l.desk) else Untouched(start.desk, l.desk))
  }

  /** The supervisor's answer to one tripped breaker. */
  lemma {:induction false} TripRealised(
      env: Desk.Env, start: LoopState, l: LoopState, name: string, action: Severity, quarantines: bool, cancels: bool)
    requires TickedTo(start, l, quarantines, cancels) && (quarantines ==> cancels)
    requires Matching(l.bus.subs, OnTripped) == [Supervisor]
    ensures var m := PublishTrip(env, l, name, action);
            && TickedTo(start, m, quarantines || Quarantines(action), cancels || Cancels(action))
            && m.breakers == l.breakers
  {
    hide DeskReady, NothingOpen, Matching, CancelOrders, MoveTo;
    var read := ReadClock(l);
    ReadyClock(l.desk, l.desk.ticks + 1);
    OneSupervisor(env, read, name, action);
    if Cancels(action) {
      var cancelled := CancelOrders(env, read);
      CancelEmpties(env, read);
      if action == Quarantine {
        QuarantineMoves(cancelled, name);
      } else if action == Flatten {
        CancelEmpties(env, cancelled);
        QuarantineMoves(CancelOrders(env, cancelled), name);
      }
    }
  }

  lemma OneSupervisor(env: Desk.Env, l: LoopState, name: string, action: Severity)
    ensures DeliverTrip(env, l, [Supervisor], name, action) == OnTrip(env, l, name, action)
  {
    assert [Supervisor][..0] == [];
  }

  lemma ReadyClock(d: Desk.DeskState, ticks: nat)
    ensures DeskReady(d) ==> DeskReady(d.(ticks := ticks))
    ensures NothingOpen(d) ==> NothingOpen(d.(ticks := ticks))
  {
  }

  /** Entering QUARANTINE reads the clock, twice, and touches no breaker. */
  lemma QuarantineMoves(l: LoopState, text: string)
    ensures var m := ReadClock(MoveTo(l, Quarantined, Breach(text)));
            && m.state == Quarantined && m.breakers == l.breakers && m.bus == l.bus && m.busRunning == l.busRunning
            && m.desk == l.desk.(ticks := l.desk.ticks + 2)
            && (DeskReady(l.desk) ==> DeskReady(m.desk)) && (NothingOpen(l.desk) ==> NothingOpen(m.desk))
  {
    MoveKeepsBreakers(l, Quarantined, Breach(text));
    ReadyClock(l.desk, l.desk.ticks + 2);
  }

  lemma {:induction false} TickRealises(env: Desk.Env, start: LoopState, c: Context, n: nat)
    requires Wired(start) && start.state == Running && DeskReady(start.desk) && n <= |start.breakers|
    ensures var t := TickUpTo(env, start, c, n);
            && !t.raised && |t.loop.breakers| == |start.breakers|
            && t.loop.breakers[n..] == start.breakers[n..]
            && TickedTo(start, t.loop, SomeTrigger(start.breakers[..n], c, Quarantines),
                        SomeTrigger(start.breakers[..n], c, Cancels))
  {
    hide Evaluate, DeskReady, NothingOpen, Matching, Wiring, Wired;
    if n > 0 {
      TickRealises(env, start, c, n - 1);
      var before := TickUpTo(env, start, c, n - 1).loop;
      var b := start.breakers[n - 1];
      assert before.breakers[n - 1] == before.breakers[n - 1..][0] == b;
      var e := before.(breakers := before.breakers[n - 1 := Evaluate(b, c).next]);
      assert e.breakers[n..] == before.breakers[n - 1..][1..] == start.breakers[n..];
      SomeTriggerNext(start.breakers, c, n, Quarantines);
      SomeTriggerNext(start.breakers, c, n, Cancels);
      SupervisorListens(start);
      if Evaluate(b, c).trigger.Some? {
        TripRealised(env, start, e, Evaluate(b, c).next.name, Evaluate(b, c).trigger.value,
                     SomeTrigger(start.breakers[..n - 1], c, Quarantines),
                     SomeTrigger(start.breakers[..n - 1], c, Cancels));
      }
    }
  }

  /** One reaction, whatever the desk: QUARANTINE if it asks for it or the system is there already. */
  lemma {:induction false} TripReaches(env: Desk.Env, l: LoopState, name: string, action: Severity, quarantined: bool)
    requires l.state == (if quarantined then Quarantined else Running)
    requires Matching(l.bus.subs, OnTripped) == [Supervisor]
    ensures var m := PublishTrip(env, l, name, action);
            && m.state == (if quarantined || Quarantines(action) then Quarantined else Running)
            && m.bus == l.bus && m.busRunning == l.busRunning && m.breakers == l.breakers
  {
    hide Matching, Deliver, Desk.CancelAll, MoveTo;
    var read := ReadClock(l);
    OneSupervisor(env, read, name, action);
    QuarantineReached(read, name);
    QuarantineReached(CancelOrders(env, read), name);
    QuarantineReached(CancelOrders(env, CancelOrders(env, read)), name);
  }

  lemma QuarantineReached(l: LoopState, text: string)
    ensures var m := ReadClock(MoveTo(l, Quarantined, Breach(text)));
            m.state == Quarantined && m.breakers == l.breakers && m.bus == l.bus && m.busRunning == l.busRunning
  {
    MoveKeepsBreakers(l, Quarantined, Breach(text));
  }

  lemma {:induction false} TickReaches(env: Desk.Env, start: LoopState, c: Context, n: nat)
    requires Wired(start) && start.state == Running && n <= |start.breakers|
    ensures var t := TickUpTo(env, start, c, n);
            && !t.raised && |t.loop.breakers| == |start.breakers|
            && t.loop.breakers[n..] == start.breakers[n..]
            && t.loop.bus == start.bus && t.loop.busRunning == start.busRunning
            && t.loop.state == (if SomeTrigger(start.breakers[..n], c, Quarantines) then Quarantined else Running)
  {
    hide Evaluate, Matching, Wiring, Wired, SomeTrigger, DeliverTrip;
    if n == 0 {
      NoTrigger(c, Quarantines);
    } else {
      TickReaches(env, start, c, n - 1);
      var before := TickUpTo(env, start, c, n - 1).loop;
      var b := start.breakers[n - 1];
      assert before.breakers[n - 1] == before.breakers[n - 1..][0] == b;
      var e := before.(breakers := before.breakers[n - 1 := Evaluate(b, c).next]);
      assert e.breakers[n..] == before.breakers[n - 1..][1..] == start.breakers[n..];
      SomeTriggerNext(start.breakers, c, n, Quarantines);
      SupervisorListens(start);
      if Evaluate(b, c).trigger.Some? {
        TripReaches(env, e, Evaluate(b, c).next.name, Evaluate(b, c).trigger.value,
                    SomeTrigger(start.breakers[..n - 1], c, Quarantines));
      }
    }
  }

  lemma NoTrigger(c: Context, kind: Severity -> bool)
    ensures !SomeTrigger([], c, kind)
  {
  }

  lemma SomeTriggerNext(breakers: seq<Breaker>, c: Context, n: nat, kind: Severity -> bool)
    requires 0 < n <= |breakers|
    ensures SomeTrigger(breakers[..n], c, kind)
            <==> SomeTrigger(breakers[..n - 1], c, kind) || Triggers(breakers[n - 1], c, kind)
  {
    assert breakers[..n] == breakers[..n - 1] + [breakers[n - 1]];
  }

  /**
    One tick taken in RUNNING: the system ends in QUARANTINE exactly if some breaker asks for
    QUARANTINE or FLATTEN.  If the order manager mirrors the venue: when some breaker asks for
    CANCEL_ALL or more, no order is left working at either; otherwise no order is touched.
   */
  lemma {:induction false} TickRealisesStrongest(env: Desk.Env, l: LoopState, total: real)
    requires Wired(l) && l.state == Running
    ensures var m, c := Tick(env, l, total), ContextOf(env, l, total);
            && m.state == (if SomeTrigger(l.breakers, c, Quarantines) then Quarantined else Running)
            && (DeskReady(l.desk) ==>
                  && (if SomeTrigger(l.breakers, c, Cancels) then NothingOpen(m.desk) else Untouched(l.desk, m.desk))
                  && DeskReady(m.desk))
  {
    hide Wired, Evaluate, DeskReady, SomeTrigger;
    ClockWired(l);
    TickReaches(env, ReadClock(l), ContextOf(env, l, total), |l.breakers|);
    if DeskReady(l.desk) {
      ReadyClock(l.desk, l.desk.ticks + 1);
      TickRealises(env, ReadClock(l), ContextOf(env, l, total), |l.breakers|);
    }
    assert l.breakers[..|l.breakers|] == l.breakers;
  }

  lemma ClockWired(l: LoopState)
    requires Wired(l)
    ensures Wired(ReadClock(l))
  {
  }

  /** The reactions do not depend on the order in which the breakers are registered and asked. */
  lemma {:induction false} OrderOfBreakersIrrelevant(env: Desk.Env, l: LoopState, k: LoopState, total: real)
    requires Wired(l) && Wired(k) && l.state == k.state == Running
    requires k.desk == l.desk && multiset(k.breakers) == multiset(l.breakers)
    ensures var m, n := Tick(env, l, total), Tick(env, k, total);
            && m.state == n.state
            && (DeskReady(l.desk) ==>
                  && m.desk.venue.open == n.desk.venue.open
                  && Desk.Working(m.desk.orders) == Desk.Working(n.desk.orders))
  {
    hide Wired, Evaluate, DeskReady, SomeTrigger, Tick;
    var c := ContextOf(env, l, total);
    TickRealisesStrongest(env, l, total);
    TickRealisesStrongest(env, k, total);
    SameTriggers(l.breakers, k.breakers, c, Quarantines);
    SameTriggers(l.breakers, k.breakers, c, Cancels);
  }

  lemma SameTriggers(a: seq<Breaker>, b: seq<Breaker>, c: Context, kind: Severity -> bool)
    requires multiset(a) == multiset(b)
    ensures SomeTrigger(a, c, kind) <==> SomeTrigger(b, c, kind)
  {
    forall x
      ensures x in a <==> x in b
    {
      assert x in a <==> x in multiset(a);
      assert x in b <==> x in multiset(b);
    }
  }

  // ----- The gate in front of the order manager

  predicate Trips(b: Breaker, c: Context) {
    Evaluate(b, c).trigger.Some?
  }

  /** Breaker `i` is the first that trips; it rejects in its name, and none after it was asked. */
  ghost predicate RejectedAt(breakers: seq<Breaker>, c: Context, k: Checking, i: int) {
    && 0 <= i < |breakers| && Trips(breakers[i], c)
    && (forall j :: 0 <= j < i ==> !Trips(breakers[j], c))
    && k.rejectedBy == Some(breakers[i].name)
    && AskedUpTo(breakers, c, k, i + 1)
  }

  /** The first `n` breakers were asked once each, the others not at all. */
  ghost predicate AskedUpTo(breakers: seq<Breaker>, c: Context, k: Checking, n: int) {
    && |k.breakers| == |breakers|
    && forall j :: 0 <= j < |breakers| ==> k.breakers[j] == if j < n then Evaluate(breakers[j], c).next else breakers[j]
  }

  /** The check rejects exactly if some breaker trips: at the first that does, asking none after it. */
  lemma {:induction false} CheckRejectsIff(breakers: seq<Breaker>, c: Context, n: nat)
    requires n <= |breakers|
    ensures var k := CheckUpTo(breakers, c, n);
            && (k.rejectedBy.Some? <==> exists i :: 0 <= i < n && Trips(breakers[i], c))
            && (k.rejectedBy.Some? ==> exists i :: 0 <= i < n && RejectedAt(breakers, c, k, i))
            && (k.rejectedBy.None? ==> AskedUpTo(breakers, c, k, n))
  {
    hide Evaluate;
    if n > 0 {
      var before, k := CheckUpTo(breakers, c, n - 1), CheckUpTo(breakers, c, n);
      CheckRejectsIff(breakers, c, n - 1);
      if before.rejectedBy.Some? {
        var i :| 0 <= i < n - 1 && RejectedAt(breakers, c, before, i);
        assert RejectedAt(breakers, c, k, i);
      } else {
        AskedName(breakers[n - 1], c);
        if Trips(breakers[n - 1], c) {
          assert RejectedAt(breakers, c, k, n - 1);
        }
      }
    }
  }

  lemma AskedName(b: Breaker, c: Context)
    ensures Evaluate(b, c).next.name == b.name
  {
  }

  /**
    An intent reaches the order manager exactly if no breaker trips on it.  The supervisor's state
    is not asked: QUARANTINE by itself does not stop new orders.
   */
  lemma {:induction false} GateIsTheBreakers(
      env: Desk.Env, l: LoopState, total: real, intent: TradeIntent, cid: string)
    ensures var r, c := SubmitIntent(env, l, total, intent, cid), ContextOf(env, l, total);
            && (r.result.RiskRejected? <==> exists i :: 0 <= i < |l.breakers| && Trips(l.breakers[i], c))
            && (r.result.RiskRejected? ==>
                  && Untouched(l.desk, r.loop.desk)
                  && exists i :: 0 <= i < |l.breakers| && IsFirstTrip(l.breakers, c, i)
                                 && r.result.breaker == l.breakers[i].name)
            && (!r.result.RiskRejected? ==>
                  && r.loop.desk == Desk.Submit(env, ReadClock(l).desk, intent, cid)
                  && r.result == SubmitResult.Submitted(l.desk.venue.nextOid + 1, cid))
            && r.loop.state == l.state && r.loop.log == l.log
  {
    hide Evaluate, Desk.Submit;
    var c := ContextOf(env, l, total);
    CheckRejectsIff(l.breakers, c, |l.breakers|);
    var k := CheckUpTo(l.breakers, c, |l.breakers|);
    if k.rejectedBy.Some? {
      var i :| 0 <= i < |l.breakers| && RejectedAt(l.breakers, c, k, i);
      assert IsFirstTrip(l.breakers, c, i);
    } else {
      OrderTracking.SubmitTakesNextId(env, ReadClock(l).desk, intent, cid);
    }
  }

  predicate IsFirstTrip(breakers: seq<Breaker>, c: Context, i: int) {
    0 <= i < |breakers| && Trips(breakers[i], c) && forall j :: 0 <= j < i ==> !Trips(breakers[j], c)
  }

  /** A system started and then quarantined by hand, with a breaker that is quiet, takes a new order. */
  lemma {:induction false} QuarantineTakesOrders(env: Desk.Env, total: real, intent: TradeIntent, cid: string)
    requires Desk.InputOk(Desk.SubmitIn(intent, cid))
    ensures var quiet := ErrorWindow("errors", Quarantine, WindowConfig(1, 0), None, []);
            var l := Run(env, InitialLoop([quiet], Desk.FRESH_DESK), [Start(Succeeds), ManualQuarantine("")]);
            var r := SubmitIntent(env, l, total, intent, cid);
            && l.state == Quarantined && r.loop.state == Quarantined
            && r.result == SubmitResult.Submitted(1, cid)
            && r.loop.desk.venue.nextOid == 1
  {
    hide StartUp, EnterQuarantine, CheckUpTo, Desk.Submit, Evaluate, Desk.Run;
    var quiet := ErrorWindow("errors", Quarantine, WindowConfig(1, 0), None, []);
    var start := InitialLoop([quiet], Desk.FRESH_DESK);
    var started := StartUp(start, Succeeds);
    var l := EnterQuarantine(env, started, "");
    TwoCalls(env, start, Start(Succeeds), ManualQuarantine(""));
    StartedState(start);
    QuarantinedState(env, started, "");
    StartKeepsBreakers(start, Succeeds);
    QuarantineKeepsBreakers(env, started, "");
    var starting := CallDrives(env, start, Start(Succeeds));
    var quarantining := CallDrives(env, started, ManualQuarantine(""));
    InputsKeepIds(env, start.desk, starting);
    InputsKeepIds(env, started.desk, quarantining);
    var c := ContextOf(env, l, total);
    NeverSawAnError(quiet, c);
    GateIsTheBreakers(env, l, total, intent, cid);
    OrderTracking.SubmitTakesNextId(env, ReadClock(l).desk, intent, cid);
  }

  lemma StartedState(l: LoopState)
    requires l.state == Booting && !l.bus.stopped
    ensures StartUp(l, Succeeds).state == Running
  {
    hide Deliver;
  }

  lemma QuarantinedState(env: Desk.Env, l: LoopState, text: string)
    requires l.state == Running
    ensures EnterQuarantine(env, l, text).state == Quarantined
  {
    hide Deliver, Desk.CancelAll;
  }

  lemma NeverSawAnError(b: Breaker, c: Context)
    requires b.ErrorWindow? && b.errors == []
    ensures !Trips(b, c)
  {
  }

  // ----- The drawdown latch

  predicate LatchedAt(l: LoopState, i: int) {
    0 <= i < |l.breakers| && l.breakers[i].Drawdown? && l.breakers[i].drawdown.latched
  }

  lemma LatchedTrips(b: Breaker, c: Context)
    requires b.Drawdown? && b.drawdown.latched
    ensures Evaluate(b, c) == Verdict(b, Some(b.action))
  {
  }

  /** Asking the breakers leaves a latched one as it is. */
  lemma {:induction false} CheckKeepsLatch(breakers: seq<Breaker>, c: Context, n: nat, i: int)
    requires n <= |breakers| && 0 <= i < |breakers| && breakers[i].Drawdown? && breakers[i].drawdown.latched
    ensures CheckUpTo(breakers, c, n).breakers[i] == breakers[i]
  {
    hide Evaluate;
    LatchedTrips(breakers[i], c);
    if n > 0 {
      CheckKeepsLatch(breakers, c, n - 1, i);
    }
  }

  lemma TripKeepsBreakers(env: Desk.Env, l: LoopState, to: seq<Subscriber>, name: string, action: Severity)
    ensures DeliverTrip(env, l, to, name, action).breakers == l.breakers
  {
    if |to| > 0 {
      TripKeepsBreakers(env, l, to[..|to| - 1], name, action);
      var before := DeliverTrip(env, l, to[..|to| - 1], name, action);
      MoveKeepsBreakers(CancelOrders(env, before), Quarantined, Breach(name));
      MoveKeepsBreakers(CancelOrders(env, CancelOrders(env, before)), Quarantined, Breach(name));
    }
  }

  lemma {:induction false} TickKeepsLatch(env: Desk.Env, l: LoopState, c: Context, n: nat, i: int)
    requires LatchedAt(l, i)
    ensures var m := TickUpTo(env, l, c, n).loop;
            LatchedAt(m, i) && m.breakers[i] == l.breakers[i]
  {
    hide TickOne;
    if n > 0 {
      TickKeepsLatch(env, l, c, n - 1, i);
      var before := TickUpTo(env, l, c, n - 1);
      if !before.raised && n - 1 < |before.loop.breakers| {
        TickOneKeepsLatch(env, before.loop, c, n - 1, i);
      }
    }
  }

  lemma TickOneKeepsLatch(env: Desk.Env, l: LoopState, c: Context, n: int, i: int)
    requires LatchedAt(l, i) && 0 <= n < |l.breakers|
    ensures var m := TickOne(env, l, c, n).loop;
            LatchedAt(m, i) && m.breakers[i] == l.breakers[i]
  {
    hide DeliverTrip, Evaluate;
    LatchedTrips(l.breakers[i], c);
    var v := Evaluate(l.breakers[n], c);
    var e := l.(breakers := l.breakers[n := v.next]);
    if v.trigger.Some? && e.bus.Up() {
      TripKeepsBreakers(env, ReadClock(e), Matching(e.bus.subs, OnTripped), v.next.name, v.trigger.value);
    }
  }

  lemma {:induction false} ErrorKeepsLatch(breakers: seq<Breaker>, to: seq<Subscriber>, e: ErrorOccurred, i: int)
    requires 0 <= i < |breakers| && breakers[i].Drawdown?
    ensures |Deliver(breakers, to, Errored(e))| == |breakers|
    ensures Deliver(breakers, to, Errored(e))[i] == breakers[i]
  {
    if |to| > 0 {
      ErrorKeepsLatch(breakers, to[..|to| - 1], e, i);
    }
  }

  lemma StartKeepsBreakers(l: LoopState, outcome: StartOutcome)
    ensures StartUp(l, outcome).breakers == l.breakers
  {
    hide Deliver, Desk.Restart;
    if l.state == Booting {
      var subs := l.bus.subs + [Subscription(OnTripped, Supervisor)];
      var wired := l.(bus := Bus(subs, true, l.bus.stopped), busRunning := true);
      MoveKeepsBreakers(wired, Reconciling, ComponentsStarted);
      var reconciling := MoveTo(wired, Reconciling, ComponentsStarted);
      MoveKeepsBreakers(reconciling.(desk := Desk.Restart(reconciling.desk)), Running, ReconciliationComplete);
    }
  }

  lemma StopKeepsBreakers(env: Desk.Env, l: LoopState, drain: bool)
    ensures ShutDown(env, l, drain).breakers == l.breakers
  {
    hide Deliver, Desk.CancelAll;
    MoveKeepsBreakers(l.(ticking := false), Draining, Shutdown(drain));
    var draining := MoveTo(l.(ticking := false), Draining, Shutdown(drain));
    var drained := if drain then CancelOrders(env, draining) else draining;
    MoveKeepsBreakers(drained.(busRunning := false, bus := Bus(l.bus.subs, false, true)), Stopped, ShutdownComplete);
  }

  lemma QuarantineKeepsBreakers(env: Desk.Env, l: LoopState, text: string)
    ensures EnterQuarantine(env, l, text).breakers == l.breakers
  {
    hide Deliver, Desk.CancelAll;
    MoveKeepsBreakers(CancelOrders(env, l), Quarantined, Breach(text));
  }

  /** No call but an acknowledgement in QUARANTINE releases a latched drawdown breaker or its history. */
  lemma {:induction false} OnlyAckReleases(env: Desk.Env, l: LoopState, call: Call, i: int)
    requires LatchedAt(l, i) && !(call.HumanAcknowledge? && l.state == Quarantined)
    ensures var m := Next(env, l, call);
            LatchedAt(m, i) && m.breakers[i] == l.breakers[i]
  {
    hide StartUp, ShutDown, EnterQuarantine, TickUpTo, CheckUpTo, Deliver, Matching;
    match call
    case Start(outcome) => StartKeepsBreakers(l, outcome);
    case Stop(drain) => StopKeepsBreakers(env, l, drain);
    case ManualQuarantine(text) => QuarantineKeepsBreakers(env, l, text);
    case HumanAcknowledge(_) =>
    case RiskTick(total) => TickKeepsLatch(env, ReadClock(l), ContextOf(env, l, total), |l.breakers|, i);
    case Intent(total, _, _) => CheckKeepsLatch(l.breakers, ContextOf(env, l, total), |l.breakers|, i);
    case ErrorReport(error) => ErrorKeepsLatch(l.breakers, Matching(l.bus.subs, OnErrored), error, i);
    case Market(_) =>
  }

  /** An acknowledgement in QUARANTINE does release it: latch and history are gone. */
  lemma {:induction false} AckReleases(l: LoopState, reconciles: bool, i: int)
    requires Wired(l) && l.state == Quarantined && 0 <= i < |l.breakers| && l.breakers[i].Drawdown?
    ensures var m := Acknowledge(l, reconciles);
            |m.breakers| == |l.breakers| && m.breakers[i] == l.breakers[i].(drawdown := DRAWDOWN_START)
  {
    var e := StateChanged(Transition(Quarantined, Reconciling, HumanAck));
    var reconciling := MoveTo(l, Reconciling, HumanAck);
    MatchingAppend(Wiring(l.breakers), [Subscription(OnTripped, Supervisor)], OnStateChanged);
    var listeners := Matching(Wiring(l.breakers), OnStateChanged);
    assert listeners + [] == listeners;
    assert l.breakers[..|l.breakers|] == l.breakers;
    DeliverReaches(l.breakers, |l.breakers|, e, i);
    DeliverLength(l.breakers, Matching(l.bus.subs, OnStateChanged), e);
    MoveKeepsBreakers(reconciling, Running, ReconciledAfterAck);
  }

  /** Calls among which no acknowledgement takes effect, played from `l`. */
  ghost predicate NoRelease(env: Desk.Env, l: LoopState, calls: seq<Call>) {
    forall k :: 0 <= k < |calls| && calls[k].HumanAcknowledge? ==> Run(env, l, calls[..k]).state != Quarantined
  }

  /**
    From a latched drawdown breaker on, over any calls without an effective acknowledgement, the
    breaker stays as it is, every intent is rejected by the risk check and no order is ever placed.
   */
  lemma {:induction false} LatchHolds(env: Desk.Env, l: LoopState, calls: seq<Call>, i: int)
    requires LatchedAt(l, i) && NoRelease(env, l, calls)
    requires forall k :: 0 <= k < |calls| ==> CallOk(calls[k])
    ensures var m := Run(env, l, calls);
            && LatchedAt(m, i) && m.breakers[i] == l.breakers[i]
            && m.desk.venue.nextOid == l.desk.venue.nextOid
            && (forall total, intent, cid :: SubmitIntent(env, m, total, intent, cid).result.RiskRejected?)
  {
    hide Next, SubmitIntent, LatchedAt;
    if |calls| > 0 {
      var before, call := calls[..|calls| - 1], calls[|calls| - 1];
      NoReleaseBefore(env, l, calls, |calls| - 1);
      LatchHolds(env, l, before, i);
      OnlyAckReleases(env, Run(env, l, before), call, i);
      LatchPlacesNothing(env, Run(env, l, before), call, i);
    }
    var m := Run(env, l, calls);
    forall total, intent, cid
      ensures SubmitIntent(env, m, total, intent, cid).result.RiskRejected?
    {
      LatchRejects(env, m, total, intent, cid, i);
    }
  }

  lemma LatchRejects(env: Desk.Env, l: LoopState, total: real, intent: TradeIntent, cid: string, i: int)
    requires LatchedAt(l, i)
    ensures SubmitIntent(env, l, total, intent, cid).result.RiskRejected?
    ensures Untouched(l.desk, SubmitIntent(env, l, total, intent, cid).loop.desk)
  {
    hide CheckUpTo, Evaluate;
    GateIsTheBreakers(env, l, total, intent, cid);
    LatchedTrips(l.breakers[i], ContextOf(env, l, total));
  }

  lemma {:induction false} LatchPlacesNothing(env: Desk.Env, l: LoopState, call: Call, i: int)
    requires LatchedAt(l, i) && CallOk(call)
    ensures Next(env, l, call).desk.venue.nextOid == l.desk.venue.nextOid
  {
    hide Next, Desk.Run, SubmitIntent, LatchedAt;
    var inputs := CallDrives(env, l, call);
    if call.Intent? {
      LatchRejects(env, l, call.total, call.intent, call.cid, i);
    }
    InputsKeepIds(env, l.desk, inputs);
  }

  /** A latched drawdown with a quarantining action takes the first tick in RUNNING to QUARANTINE. */
  lemma {:induction false} LatchQuarantines(env: Desk.Env, l: LoopState, total: real, i: int)
    requires LatchedAt(l, i) && Quarantines(l.breakers[i].action)
    requires Wired(l) && l.state == Running
    ensures var m := Tick(env, l, total);
            m.state == Quarantined && LatchedAt(m, i) && (DeskReady(l.desk) ==> NothingOpen(m.desk))
  {
    hide Evaluate, Wired, DeskReady, Tick;
    var c := ContextOf(env, l, total);
    LatchedTrips(l.breakers[i], c);
    assert Triggers(l.breakers[i], c, Quarantines) && Triggers(l.breakers[i], c, Cancels)
        && l.breakers[i] in l.breakers;
    TickRealisesStrongest(env, l, total);
    OnlyAckReleases(env, l, RiskTick(total), i);
  }

  /**
    The latch end to end, for every reachable state in which drawdown breaker `i` is latched and
    every continuation without an effective acknowledgement, on any clock: intents are rejected,
    nothing is placed, and a tick taken while RUNNING ends in QUARANTINE.  If no order was placed before
    the start, or the clock is strict, that tick leaves no order open anywhere.
   */
  lemma {:induction false} DrawdownLatchEndToEnd(
      env: Desk.Env, breakers: seq<Breaker>, past: seq<Call>, calls: seq<Call>, i: int, total: real)
    requires forall k :: 0 <= k < |calls| ==> CallOk(calls[k])
    requires var l := Run(env, InitialLoop(breakers, Desk.FRESH_DESK), past);
             LatchedAt(l, i) && Quarantines(l.breakers[i].action) && NoRelease(env, l, calls)
    ensures var l := Run(env, InitialLoop(breakers, Desk.FRESH_DESK), past);
            var m := Run(env, l, calls);
            && m.desk.venue.nextOid == l.desk.venue.nextOid
            && (forall total, intent, cid :: SubmitIntent(env, m, total, intent, cid).result.RiskRejected?)
            && (m.state == Running ==> Tick(env, m, total).state == Quarantined)
            && (m.state == Running && env.engine.Sane() && (forall k :: 0 <= k < |past| ==> CallOk(past[k]))
                && (NothingPlacedEarly(env, InitialLoop(breakers, Desk.FRESH_DESK), past)
                    || Desk.Monotone(env.clock, true)) ==>
                  NothingOpen(Tick(env, m, total).desk))
  {
    hide Next, SubmitIntent, Tick, Logged, DeskReady, LatchedAt, NoRelease, NothingPlacedEarly;
    var start := InitialLoop(breakers, Desk.FRESH_DESK);
    var l := Run(env, start, past);
    LatchHolds(env, l, calls, i);
    var m := Run(env, l, calls);
    if m.state == Running {
      InitialLogged(breakers, Desk.FRESH_DESK);
      RunLogged(env, start, past);
      RunLogged(env, l, calls);
      LoggedChain(m);
      LatchQuarantines(env, m, total, i);
      if env.engine.Sane() && (forall k :: 0 <= k < |past| ==> CallOk(past[k]))
         && (NothingPlacedEarly(env, start, past) || Desk.Monotone(env.clock, true)) {
        LatchedDeskReady(env, breakers, past, calls, i);
      }
    }
  }

  lemma {:induction false} LatchedDeskReady(
      env: Desk.Env, breakers: seq<Breaker>, past: seq<Call>, calls: seq<Call>, i: int)
    requires env.engine.Sane()
    requires forall k :: 0 <= k < |past| ==> CallOk(past[k])
    requires forall k :: 0 <= k < |calls| ==> CallOk(calls[k])
    requires NothingPlacedEarly(env, InitialLoop(breakers, Desk.FRESH_DESK), past) || Desk.Monotone(env.clock, true)
    requires var l := Run(env, InitialLoop(breakers, Desk.FRESH_DESK), past);
             LatchedAt(l, i) && NoRelease(env, l, calls)
    ensures DeskReady(Run(env, Run(env, InitialLoop(breakers, Desk.FRESH_DESK), past), calls).desk)
  {
    hide Run, Logged, DeskReady, Ready, LatchedAt, NoRelease, NothingPlacedEarly;
    var start := InitialLoop(breakers, Desk.FRESH_DESK);
    RunsCompose(env, start, past, calls);
    forall k | 0 <= k < |past + calls|
      ensures CallOk((past + calls)[k])
    {
      assert (past + calls)[k] == if k < |past| then past[k] else calls[k - |past|];
    }
    if Desk.Monotone(env.clock, true) {
      StrictClockReady(env, breakers, past + calls);
    } else {
      StillNothingEarly(env, start, past, calls, i);
      ReachableReady(env, breakers, past + calls);
      ReadyIs(Run(env, start, past + calls));
    }
  }

  lemma ReadyIs(l: LoopState)
    requires Ready(l)
    ensures DeskReady(l.desk) && Logged(l)
  {
  }

  /** A latched breaker lets nothing pass, so what follows places nothing early either. */
  lemma {:induction false} StillNothingEarly(env: Desk.Env, start: LoopState, past: seq<Call>, calls: seq<Call>, i: int)
    requires NothingPlacedEarly(env, start, past)
    requires LatchedAt(Run(env, start, past), i) && NoRelease(env, Run(env, start, past), calls)
    requires forall k :: 0 <= k < |calls| ==> CallOk(calls[k])
    ensures NothingPlacedEarly(env, start, past + calls)
  {
    hide Run, SubmitIntent, LatchedAt, NoRelease;
    var l := Run(env, start, past);
    forall k | 0 <= k < |past + calls| && Run(env, start, (past + calls)[..k]).state == Booting
      ensures !Passes(env, Run(env, start, (past + calls)[..k]), (past + calls)[k])
    {
      if k < |past| {
        assert (past + calls)[..k] == past[..k] && (past + calls)[k] == past[k];
      } else {
        var j := k - |past|;
        assert (past + calls)[..k] == past + calls[..j] && (past + calls)[k] == calls[j];
        RunsCompose(env, start, past, calls[..j]);
        NoReleaseBefore(env, l, calls, j);
        LatchHolds(env, l, calls[..j], i);
      }
    }
  }

  lemma NoReleaseBefore(env: Desk.Env, l: LoopState, calls: seq<Call>, n: nat)
    requires n <= |calls| && NoRelease(env, l, calls)
    ensures NoRelease(env, l, calls[..n])
  {
    hide Run;
    forall k | 0 <= k < n && calls[..n][k].HumanAcknowledge?
      ensures Run(env, l, calls[..n][..k]).state != Quarantined
    {
      assert calls[..n][..k] == calls[..k] && calls[..n][k] == calls[k];
    }
  }

  lemma RunsCompose(env: Desk.Env, l: LoopState, xs: seq<Call>, ys: seq<Call>)
    ensures Run(env, l, xs + ys) == Run(env, Run(env, l, xs), ys)
  {
    hide Next;
    if |ys| == 0 {
      assert xs + ys == xs;
    } else {
      assert (xs + ys)[..|xs + ys| - 1] == xs + ys[..|ys| - 1];
      RunsCompose(env, l, xs, ys[..|ys| - 1]);
    }
  }
}
