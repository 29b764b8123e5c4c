/**
  What each call of the supervisor achieves, and what the breakers are shown.
 */
module SupervisorEffects {
  import opened Domain
  import opened RiskLoop
  import opened RiskDesk
  import opened RiskReactions
  import opened RiskSafety
  import Desk
  import Journal
  import OrderTracking

  // ----- Stopping

  /**
    Stopping ends in STOPPED from any other state, on a bus no one can publish on.  With `drain` it leaves no
    order working at the venue or in an order manager that mirrored it; without, it touches no order.
   */
  lemma {:induction false} StopDrains(env: Desk.Env, l: LoopState, drain: bool)
    requires l.state != Stopped && l.state != Draining
    ensures var m := ShutDown(env, l, drain);
            && m.state == Stopped && !m.bus.Up() && m.bus.stopped && !m.busRunning && !m.ticking
            && (drain && DeskReady(l.desk) ==> NothingOpen(m.desk) && DeskReady(m.desk))
            && (!drain ==> Untouched(l.desk, m.desk))
  {
    hide DeskReady, NothingOpen, CancelOrders;
    var draining := MoveTo(l.(ticking := false), Draining, Shutdown(drain));
    Moved(l.(ticking := false), Draining, Shutdown(drain));
    var drained := if drain then CancelOrders(env, draining) else draining;
    if drain && DeskReady(l.desk) {
      CancelEmpties(env, draining);
    }
    Cancelled(env, draining);
    Moved(drained.(busRunning := false, bus := Bus(l.bus.subs, false, true)), Stopped, ShutdownComplete);
  }

  lemma Moved(l: LoopState, target: SystemState, reason: Reason)
    ensures var m := MoveTo(l, target, reason);
            && m.state == target && m.bus == l.bus && m.busRunning == l.busRunning && m.ticking == l.ticking
            && m.desk == l.desk.(ticks := l.desk.ticks + 1)
            && (DeskReady(l.desk) ==> DeskReady(m.desk)) && (NothingOpen(l.desk) ==> NothingOpen(m.desk))
            && Untouched(l.desk, m.desk)
  {
    hide Deliver, DeskReady;
    ReadyClock(l.desk, l.desk.ticks + 1);
  }

  lemma Cancelled(env: Desk.Env, l: LoopState)
    ensures var m := CancelOrders(env, l);
            m.state == l.state && m.bus == l.bus && m.busRunning == l.busRunning && m.ticking == l.ticking
  {
    hide Desk.CancelAll;
  }

  /**
    In every run from a fresh desk: stopping a system that is not yet stopped, with `drain`, leaves nothing
    open, if no order was placed before the start or the clock is strict.
   */
  lemma {:induction false} StopDrainsInRuns(env: Desk.Env, breakers: seq<Breaker>, calls: seq<Call>)
    requires env.engine.Sane() && forall k :: 0 <= k < |calls| ==> CallOk(calls[k])
    requires NothingPlacedEarly(env, InitialLoop(breakers, Desk.FRESH_DESK), calls) || Desk.Monotone(env.clock, true)
    requires Run(env, InitialLoop(breakers, Desk.FRESH_DESK), calls).state != Stopped
    ensures var m := ShutDown(env, Run(env, InitialLoop(breakers, Desk.FRESH_DESK), calls), true);
            m.state == Stopped && NothingOpen(m.desk)
  {
    hide Run, DeskReady, NothingOpen, NothingPlacedEarly, Logged;
    var l := Run(env, InitialLoop(breakers, Desk.FRESH_DESK), calls);
    if Desk.Monotone(env.clock, true) {
      StrictClockReady(env, breakers, calls);
    } else {
      ReachableReady(env, breakers, calls);
      ReadyIs(l);
    }
    NeverDraining(l);
    StopDrains(env, l, true);
  }

  lemma NeverDraining(l: LoopState)
    requires Logged(l)
    ensures l.state != Draining
  {
  }

  // ----- Quarantining by hand, starting, acknowledging

  /** `quarantine` works only in RUNNING; there it leaves nothing open that the order manager knew of. */
  lemma {:induction false} QuarantineEmpties(env: Desk.Env, l: LoopState, text: string)
    ensures var m := EnterQuarantine(env, l, text);
            if l.state != Running then m == l
            else m.state == Quarantined && (DeskReady(l.desk) ==> NothingOpen(m.desk) && DeskReady(m.desk))
  {
    hide DeskReady, NothingOpen, CancelOrders, MoveTo;
    if l.state == Running {
      if DeskReady(l.desk) {
        CancelEmpties(env, l);
      }
      QuarantineMoves(CancelOrders(env, l), text);
    }
  }

  /**
    How a start ends.  It does something only from BOOTING, on a bus not yet stopped, with a journal that
    opens.  It reaches RUNNING, with the breakers ticking, exactly if everything succeeds, and RECONCILING
    otherwise; once the order manager was restored its cache is what the journal reads back.
   */
  lemma {:induction false} StartEnds(l: LoopState, outcome: StartOutcome)
    ensures var m := StartUp(l, outcome);
            if l.state != Booting || l.bus.stopped || outcome == PersistenceFails then m == l
            else
              && m.state == (if outcome == Succeeds then Running else Reconciling)
              && m.busRunning && m.bus.Up() && m.ticking == (l.ticking || outcome == Succeeds)
              && m.desk.venue == l.desk.venue && m.desk.rows == l.desk.rows && m.desk.fills == l.desk.fills
              && m.desk.orders == (if outcome == RestoreFails then l.desk.orders else Journal.ReadLatest(l.desk.rows))
  {
    hide Journal.ReadLatest, DeskReady, NothingOpen, MoveTo;
    if l.state == Booting && outcome != PersistenceFails && !l.bus.stopped {
      var subs := l.bus.subs + [Subscription(OnTripped, Supervisor)];
      var wired := l.(bus := Bus(subs, true, l.bus.stopped), busRunning := true);
      Moved(wired, Reconciling, ComponentsStarted);
      var reconciling := MoveTo(wired, Reconciling, ComponentsStarted);
      Moved(reconciling.(desk := Desk.Restart(reconciling.desk)), Running, ReconciliationComplete);
    }
  }

  /** `acknowledge` works only in QUARANTINE: to RUNNING exactly if the reconciliation succeeds, touching no order. */
  lemma {:induction false} AcknowledgeEnds(l: LoopState, reconciles: bool)
    ensures var m := Acknowledge(l, reconciles);
            if l.state != Quarantined then m == l
            else m.state == (if reconciles then Running else Reconciling) && Untouched(l.desk, m.desk)
  {
    hide DeskReady, NothingOpen, MoveTo;
    if l.state == Quarantined {
      Moved(l, Reconciling, HumanAck);
      Moved(MoveTo(l, Reconciling, HumanAck), Running, ReconciledAfterAck);
    }
  }

  // ----- What a tick logs

  /** Breaker `i` is the first to ask for QUARANTINE or FLATTEN. */
  predicate FirstToQuarantine(breakers: seq<Breaker>, c: Context, i: int) {
    && 0 <= i < |breakers| && Triggers(breakers[i], c, Quarantines)
    && forall j :: 0 <= j < i ==> !Triggers(breakers[j], c, Quarantines)
  }

  /**
    A tick in RUNNING logs one transition if some breaker asks for QUARANTINE or FLATTEN, in the name of the
    first that does, however many ask; and none otherwise.
   */
  lemma {:induction false} TickLogs(env: Desk.Env, l: LoopState, total: real)
    requires Wired(l) && l.state == Running
    ensures var m, c := Tick(env, l, total), ContextOf(env, l, total);
            && (forall i :: FirstToQuarantine(l.breakers, c, i) ==>
                  m.log == l.log + [Transition(Running, Quarantined, Breach(l.breakers[i].name))])
            && ((forall i :: 0 <= i < |l.breakers| ==> !Triggers(l.breakers[i], c, Quarantines)) ==> m.log == l.log)
  {
    hide Evaluate, TickUpTo, Wired;
    ClockWired(l);
    var c := ContextOf(env, l, total);
    LogsUpTo(env, ReadClock(l), c, |l.breakers|);
    assert l.breakers[..|l.breakers|] == l.breakers;
  }

  lemma {:induction false} LogsUpTo(env: Desk.Env, start: LoopState, c: Context, n: nat)
    requires Wired(start) && start.state == Running && n <= |start.breakers|
    ensures var log := TickUpTo(env, start, c, n).loop.log;
            && (forall i :: FirstToQuarantine(start.breakers[..n], c, i) ==>
                  log == start.log + [Transition(Running, Quarantined, Breach(start.breakers[i].name))])
            && ((forall i :: 0 <= i < n ==> !Triggers(start.breakers[i], c, Quarantines)) ==> log == start.log)
  {
    hide TickOne, Triggers, Wired, SomeTrigger;
    if n > 0 {
      LogsUpTo(env, start, c, n - 1);
      TickReaches(env, start, c, n - 1);
      var before, b := TickUpTo(env, start, c, n - 1), start.breakers[n - 1];
      SameRest(before.loop.breakers, start.breakers, n - 1);
      SupervisorListens(start);
      OneLogs(env, before.loop, c, n - 1);
      if forall i :: 0 <= i < n - 1 ==> !Triggers(start.breakers[i], c, Quarantines) {
        NoneAsks(start.breakers, c, n - 1);
      }
      forall i | FirstToQuarantine(start.breakers[..n], c, i)
        ensures TickUpTo(env, start, c, n).loop.log
                == start.log + [Transition(Running, Quarantined, Breach(start.breakers[i].name))]
      {
        FirstAmong(start.breakers, c, n, i);
      }
    }
  }

  lemma SameRest(xs: seq<Breaker>, ys: seq<Breaker>, k: int)
    requires 0 <= k < |xs| == |ys| && xs[k..] == ys[k..]
    ensures xs[k] == ys[k] && xs[k + 1..] == ys[k + 1..]
  {
    assert xs[k..][0] == xs[k] && ys[k..][0] == ys[k];
    assert xs[k..][1..] == xs[k + 1..] && ys[k..][1..] == ys[k + 1..];
  }

  /** The first of `n` is the first of `n - 1` and one that asked, or the last and alone. */
  lemma FirstAmong(breakers: seq<Breaker>, c: Context, n: nat, i: int)
    requires 0 < n <= |breakers| && FirstToQuarantine(breakers[..n], c, i)
    ensures i < n - 1 ==> FirstToQuarantine(breakers[..n - 1], c, i) && SomeTrigger(breakers[..n - 1], c, Quarantines)
    ensures i == n - 1 ==> Triggers(breakers[n - 1], c, Quarantines)
    ensures i == n - 1 ==> forall j :: 0 <= j < n - 1 ==> !Triggers(breakers[j], c, Quarantines)
  {
    hide Triggers, SomeTrigger;
    forall j | 0 <= j < n
      ensures breakers[..n][j] == breakers[j]
    {
    }
    if i < n - 1 {
      OneAsks(breakers, c, n - 1, i);
    }
  }

  lemma OneAsks(breakers: seq<Breaker>, c: Context, n: nat, i: int)
    requires 0 <= i < n <= |breakers| && Triggers(breakers[i], c, Quarantines)
    ensures SomeTrigger(breakers[..n], c, Quarantines)
  {
    hide Triggers;
    assert breakers[..n][i] == breakers[i];
    assert breakers[i] in breakers[..n];
  }

  lemma NoneAsks(breakers: seq<Breaker>, c: Context, n: nat)
    requires n <= |breakers| && forall i :: 0 <= i < n ==> !Triggers(breakers[i], c, Quarantines)
    ensures !SomeTrigger(breakers[..n], c, Quarantines)
  {
    hide Triggers;
  }

  lemma OneLogs(env: Desk.Env, l: LoopState, c: Context, i: int)
    requires 0 <= i < |l.breakers| && l.bus.Up() && Matching(l.bus.subs, OnTripped) == [Supervisor]
    ensures TickOne(env, l, c, i).loop.log
            == if l.state == Running && Triggers(l.breakers[i], c, Quarantines)
               then l.log + [Transition(Running, Quarantined, Breach(l.breakers[i].name))] else l.log
  {
    hide Evaluate, CancelOrders, Matching, Deliver;
    var v := Evaluate(l.breakers[i], c);
    AskedName(l.breakers[i], c);
    var e := l.(breakers := l.breakers[i := v.next]);
    if v.trigger.Some? {
      OneSupervisor(env, ReadClock(e), v.next.name, v.trigger.value);
      CancelsOnly(env, ReadClock(e));
      CancelsOnly(env, CancelOrders(env, ReadClock(e)));
    }
  }

  lemma CancelsOnly(env: Desk.Env, l: LoopState)
    ensures CancelOrders(env, l).log == l.log && CancelOrders(env, l).state == l.state
  {
    hide Desk.CancelAll;
  }

  // ----- What breakers are shown, and ticks outside RUNNING

  /** Breakers are shown the next reading, the balance given, and, if mirrored, the venue's open orders. */
  lemma {:induction false} ContextShows(env: Desk.Env, l: LoopState, total: real)
    ensures var c := ContextOf(env, l, total);
            && c.now == env.clock(l.desk.ticks) && c.total == total
            && (DeskReady(l.desk) ==> c.openOrders == l.desk.venue.open)
  {
    if DeskReady(l.desk) {
      OrderTracking.GoodMirrors(l.desk);
    }
  }

  /** The reactions that cancel orders in any state: there is no QUARANTINE to enter. */
  predicate CancelsAnyway(s: Severity) {
    s == CancelAll || s == Flatten
  }

  ghost predicate TickedIdly(start: LoopState, l: LoopState, cancels: bool) {
    && l.state == start.state && l.log == start.log
    && l.bus == start.bus && l.busRunning == start.busRunning
    && DeskReady(l.desk)
    && (if cancels then NothingOpen(l.desk) else Untouched(start.desk, l.desk))
  }

  lemma {:induction false} TripOutside(
      env: Desk.Env, start: LoopState, l: LoopState, name: string, action: Severity, cancels: bool)
    requires TickedIdly(start, l, cancels) && start.state != Running
    requires Matching(l.bus.subs, OnTripped) == [Supervisor]
    ensures var m := PublishTrip(env, l, name, action);
            && TickedIdly(start, m, cancels || CancelsAnyway(action))
            && m.breakers == l.breakers
  {
    hide DeskReady, NothingOpen, Matching, CancelOrders;
    var read := ReadClock(l);
    ReadyClock(l.desk, l.desk.ticks + 1);
    OneSupervisor(env, read, name, action);
    if CancelsAnyway(action) {
      CancelEmpties(env, read);
    }
  }

  lemma {:induction false} TickOutside(env: Desk.Env, start: LoopState, c: Context, n: nat)
    requires Wired(start) && (start.state == Quarantined || start.state == Reconciling)
    requires DeskReady(start.desk) && n <= |start.breakers|
    ensures var t := TickUpTo(env, start, c, n);
            && !t.raised && |t.loop.breakers| == |start.breakers|
            && t.loop.breakers[n..] == start.breakers[n..]
            && TickedIdly(start, t.loop, SomeTrigger(start.breakers[..n], c, CancelsAnyway))
  {
    hide Evaluate, DeskReady, NothingOpen, Matching, Wiring, Wired;
    if n > 0 {
      TickOutside(env, start, c, n - 1);
      var before := TickUpTo(env, start, c, n - 1).loop;
      var b := start.breakers[n - 1];
      SameRest(before.breakers, start.breakers, n - 1);
      var e := before.(breakers := before.breakers[n - 1 := Evaluate(b, c).next]);
      assert e.breakers[n..] == before.breakers[n..];
      SomeTriggerNext(start.breakers, c, n, CancelsAnyway);
      SupervisorListens(start);
      if Evaluate(b, c).trigger.Some? {
        TripOutside(env, start, e, Evaluate(b, c).next.name, Evaluate(b, c).trigger.value,
                    SomeTrigger(start.breakers[..n - 1], c, CancelsAnyway));
      }
    }
  }

  /**
    A tick taken in QUARANTINE or RECONCILING changes no state, and a breaker that asks for QUARANTINE does
    not even have orders cancelled: none stays open if some breaker asks for CANCEL_ALL or FLATTEN, and
    otherwise none is touched.
   */
  lemma {:induction false} TickElsewhere(env: Desk.Env, l: LoopState, total: real)
    requires Wired(l) && (l.state == Quarantined || l.state == Reconciling) && DeskReady(l.desk)
    ensures var m, c := Tick(env, l, total), ContextOf(env, l, total);
            && m.state == l.state && m.log == l.log && DeskReady(m.desk)
            && (if exists i :: 0 <= i < |l.breakers| && Triggers(l.breakers[i], c, CancelsAnyway)
                then NothingOpen(m.desk) else Untouched(l.desk, m.desk))
  {
    hide Wired, DeskReady, NothingOpen, Evaluate, TickUpTo;
    ClockWired(l);
    ReadyClock(l.desk, l.desk.ticks + 1);
    TickOutside(env, ReadClock(l), ContextOf(env, l, total), |l.breakers|);
    assert l.breakers[..|l.breakers|] == l.breakers;
  }

  /** On a bus that is not up (before the start, after the stop) a tick moves nothing on and touches no order. */
  lemma {:induction false} TickOffline(env: Desk.Env, l: LoopState, c: Context, n: nat)
    requires !l.bus.Up() && n <= |l.breakers|
    ensures var t := TickUpTo(env, l, c, n);
            && t.loop.state == l.state && t.loop.log == l.log && t.loop.bus == l.bus && Untouched(l.desk, t.loop.desk)
            && |t.loop.breakers| == |l.breakers| && t.loop.breakers[n..] == l.breakers[n..]
            && (t.raised <==> exists i :: 0 <= i < n && Trips(l.breakers[i], c))
  {
    hide Evaluate, TickOne, Trips;
    if n > 0 {
      TickOffline(env, l, c, n - 1);
      var before := TickUpTo(env, l, c, n - 1);
      SameRest(before.loop.breakers, l.breakers, n - 1);
      if !before.raised {
        OfflineOne(env, before.loop, c, n - 1);
      }
    }
  }

  lemma OfflineOne(env: Desk.Env, l: LoopState, c: Context, i: int)
    requires !l.bus.Up() && 0 <= i < |l.breakers|
    ensures var t := TickOne(env, l, c, i);
            && t.loop.state == l.state && t.loop.log == l.log && t.loop.bus == l.bus && Untouched(l.desk, t.loop.desk)
            && |t.loop.breakers| == |l.breakers| && t.loop.breakers[i + 1..] == l.breakers[i + 1..]
            && (t.raised <==> Trips(l.breakers[i], c))
  {
    hide Evaluate;
  }
}
