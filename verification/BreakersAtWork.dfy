/**
  What the breakers of a running system have been through: every error reported on a live bus exactly
  once, and at most one evaluation per tick or intent.  So the error window counts every error of a run.
 */
module BreakersAtWork {
  import opened Domain
  import opened Breakers
  import opened BreakerRuns
  import opened RiskLoop
  import opened RiskDesk
  import opened RiskReactions
  import opened RiskSafety
  import Desk
  import OrderTracking
  import Venue

  // ----- One call

  /** What a call does to a breaker: an error report is heard, once; otherwise it is asked at most once, then. */
  predicate TellsOf(env: Desk.Env, l: LoopState, call: Call, moments: seq<Moment>) {
    if call.ErrorReport? && l.bus.Up() then moments == [Heard(Errored(call.error))]
    else
      && |moments| <= 1
      && (|moments| == 1 && moments[0].Heard? ==> moments[0].event.StateChanged?)
      && (|moments| == 1 && moments[0].Asked? ==> moments[0].context.now == env.clock(l.desk.ticks))
  }

  lemma NothingHappens(b: Breaker)
    ensures After(b, []) == b
  {
  }

  lemma OneMoment(b: Breaker, m: Moment)
    ensures After(b, [m]) == Experience(b, m)
  {
    assert [m][..0] == [];
  }

  lemma {:induction false} CallTells(env: Desk.Env, l: LoopState, call: Call, i: int) returns (moments: seq<Moment>)
    requires Wired(l) && 0 <= i < |l.breakers|
    ensures TellsOf(env, l, call, moments)
    ensures var m := Next(env, l, call);
            |m.breakers| == |l.breakers| && m.breakers[i] == After(l.breakers[i], moments)
  {
    hide Hear, Evaluate, After, Wired, StartUp, ShutDown, EnterQuarantine, Acknowledge, Tick, SubmitIntent, Notify;
    moments := [];
    NothingHappens(l.breakers[i]);
    match call
    case Start(outcome) => StartKeepsBreakers(l, outcome);
    case Stop(drain) => StopKeepsBreakers(env, l, drain);
    case ManualQuarantine(text) => QuarantineKeepsBreakers(env, l, text);
    case HumanAcknowledge(reconciles) => moments := AcknowledgeTells(l, reconciles, i);
    case RiskTick(total) => moments := TickTells(env, ReadClock(l), ContextOf(env, l, total), |l.breakers|, i);
      assert Next(env, l, call) == Tick(env, l, total);
      TickIs(env, l, total);
    case Intent(total, intent, cid) =>
      moments := CheckTells(l.breakers, ContextOf(env, l, total), |l.breakers|, i);
      SubmitBreakers(env, l, total, intent, cid);
    case ErrorReport(error) =>
      if l.bus.Up() {
        moments := [Heard(Errored(error))];
        EventHeard(l, Errored(error), i);
        OneMoment(l.breakers[i], moments[0]);
      }
    case Market(_) =>
  }

  lemma TickIs(env: Desk.Env, l: LoopState, total: real)
    ensures Tick(env, l, total) == TickUpTo(env, ReadClock(l), ContextOf(env, l, total), |l.breakers|).loop
  {
  }

  lemma SubmitBreakers(env: Desk.Env, l: LoopState, total: real, intent: TradeIntent, cid: string)
    ensures SubmitIntent(env, l, total, intent, cid).loop.breakers
            == CheckUpTo(l.breakers, ContextOf(env, l, total), |l.breakers|).breakers
  {
    hide CheckUpTo, Desk.Submit;
  }

  /** An event that no one but breakers listens to reaches breaker `i` once. */
  lemma {:induction false} EventHeard(l: LoopState, e: Event, i: int)
    requires Wired(l) && 0 <= i < |l.breakers| && !e.Tripped?
    ensures |Notify(l, e).breakers| == |l.breakers| && Notify(l, e).breakers[i] == Hear(l.breakers[i], e)
  {
    hide Hear, Deliver, Wiring, Matching;
    MatchingAppend(Wiring(l.breakers), [Subscription(OnTripped, Supervisor)], KindOf(e));
    var listeners := Matching(Wiring(l.breakers), KindOf(e));
    assert listeners + [] == listeners;
    assert l.breakers[..|l.breakers|] == l.breakers;
    DeliverReaches(l.breakers, |l.breakers|, e, i);
  }

  lemma {:induction false} AcknowledgeTells(l: LoopState, reconciles: bool, i: int) returns (moments: seq<Moment>)
    requires Wired(l) && 0 <= i < |l.breakers|
    ensures |moments| <= 1 && (|moments| == 1 ==> moments[0].Heard? && moments[0].event.StateChanged?)
    ensures var m := Acknowledge(l, reconciles);
            |m.breakers| == |l.breakers| && m.breakers[i] == After(l.breakers[i], moments)
  {
    hide Hear, After, Deliver, Wiring, Matching;
    moments := [];
    NothingHappens(l.breakers[i]);
    if l.state == Quarantined {
      var released := Transition(Quarantined, Reconciling, HumanAck);
      moments := [Heard(StateChanged(released))];
      var moved := ReadClock(l).(state := Reconciling, log := l.log + [released]);
      Released(l, moved);
      EventHeard(moved, StateChanged(released), i);
      OneMoment(l.breakers[i], moments[0]);
      MoveKeepsBreakers(MoveTo(l, Reconciling, HumanAck), Running, ReconciledAfterAck);
    }
  }

  lemma Released(l: LoopState, moved: LoopState)
    requires Wired(l) && l.state == Quarantined && moved == ReadClock(l).(state := Reconciling, log := moved.log)
    ensures Wired(moved) && l.busRunning
  {
  }

  /** A tick asks breaker `i` in its turn, if it gets that far, and touches it no further. */
  lemma {:induction false} TickTells(env: Desk.Env, l: LoopState, c: Context, n: nat, i: int)
    returns (moments: seq<Moment>)
    requires 0 <= i < |l.breakers|
    ensures moments == [] || (moments == [Asked(c)] && i < n)
    ensures var m := TickUpTo(env, l, c, n).loop;
            |m.breakers| == |l.breakers| && m.breakers[i] == After(l.breakers[i], moments)
  {
    hide TickOne, After, Evaluate;
    moments := [];
    NothingHappens(l.breakers[i]);
    if n > 0 {
      moments := TickTells(env, l, c, n - 1, i);
      var before := TickUpTo(env, l, c, n - 1);
      if !before.raised && n - 1 < |before.loop.breakers| {
        TickOneAsks(env, before.loop, c, n - 1);
        if i == n - 1 {
          moments := [Asked(c)];
          OneMoment(l.breakers[i], Asked(c));
        }
      }
    }
  }

  lemma TickOneAsks(env: Desk.Env, l: LoopState, c: Context, n: int)
    requires 0 <= n < |l.breakers|
    ensures TickOne(env, l, c, n).loop.breakers == l.breakers[n := Evaluate(l.breakers[n], c).next]
  {
    hide DeliverTrip, Evaluate;
    var v := Evaluate(l.breakers[n], c);
    var e := l.(breakers := l.breakers[n := v.next]);
    if v.trigger.Some? && e.bus.Up() {
      TripKeepsBreakers(env, ReadClock(e), Matching(e.bus.subs, OnTripped), v.next.name, v.trigger.value);
    }
  }

  /** A check asks breaker `i` unless one before it rejected. */
  lemma {:induction false} CheckTells(breakers: seq<Breaker>, c: Context, n: nat, i: int)
    returns (moments: seq<Moment>)
    requires 0 <= i < |breakers| && n <= |breakers|
    ensures moments == [] || (moments == [Asked(c)] && i < n)
    ensures CheckUpTo(breakers, c, n).breakers[i] == After(breakers[i], moments)
  {
    hide After, Evaluate;
    moments := [];
    NothingHappens(breakers[i]);
    if n > 0 {
      moments := CheckTells(breakers, c, n - 1, i);
      if i == n - 1 && CheckUpTo(breakers, c, n - 1).rejectedBy.None? {
        moments := [Asked(c)];
        OneMoment(breakers[i], Asked(c));
      }
    }
  }

  // ----- The clock

  lemma {:induction false} TicksGrow(env: Desk.Env, d: Desk.DeskState, inputs: seq<Desk.Input>)
    ensures Desk.Run(env, d, inputs).ticks >= d.ticks
  {
    hide Desk.Next;
    if |inputs| > 0 {
      TicksGrow(env, d, inputs[..|inputs| - 1]);
      InputTicks(env, Desk.Run(env, d, inputs[..|inputs| - 1]), inputs[|inputs| - 1]);
    }
  }

  lemma InputTicks(env: Desk.Env, d: Desk.DeskState, input: Desk.Input)
    ensures Desk.Next(env, d, input).ticks >= d.ticks
  {
    hide Desk.PlaceOrder, Desk.TryFillEach, Desk.CancelEach;
    match input
    case SubmitIn(intent, cid) =>
      OrderTracking.PlacedTicks(env, d.(ticks := d.ticks + 1), Desk.RequestOf(intent, cid));
    case CancelIn(_) =>
    case CancelAllIn(symbol) => CancelEachTicks(env, d, Venue.IdsOn(Desk.Working(d.orders), symbol));
    case BookIn(book) =>
      FillsTicks(env, d.(venue := Venue.StoreBook(d.venue, book)), Venue.IdsOn(d.venue.open, Some(book.symbol)), book);
    case ClockIn =>
    case RestartIn =>
  }

  lemma {:induction false} CancelEachTicks(env: Desk.Env, d: Desk.DeskState, ids: seq<OrderId>)
    ensures Desk.CancelEach(env, d, ids).ticks >= d.ticks
  {
    if |ids| > 0 {
      CancelEachTicks(env, d, ids[..|ids| - 1]);
    }
  }

  lemma {:induction false} FillsTicks(env: Desk.Env, d: Desk.DeskState, ids: seq<OrderId>, book: Book)
    ensures Desk.TryFillEach(env, d, ids, book).ticks >= d.ticks
  {
    hide Venue.Attempt, Venue.Updated;
    if |ids| > 0 {
      FillsTicks(env, d, ids[..|ids| - 1], book);
    }
  }

  lemma CallTicks(env: Desk.Env, l: LoopState, call: Call)
    requires CallOk(call)
    ensures Next(env, l, call).desk.ticks >= l.desk.ticks
  {
    hide Next;
    var inputs := CallDrives(env, l, call);
    TicksGrow(env, l.desk, inputs);
  }

  // ----- Whole runs

  /** Call `k` of the run reports an error while the bus is up. */
  ghost predicate Reported(env: Desk.Env, l: LoopState, calls: seq<Call>, k: int)
    requires 0 <= k < |calls|
  {
    calls[k].ErrorReport? && Run(env, l, calls[..k]).bus.Up()
  }

  /** The stamps of those errors, as far as accepted, in order. */
  ghost function Reports(env: Desk.Env, l: LoopState, calls: seq<Call>, accepts: ErrorOccurred -> bool): seq<Time> {
    if |calls| == 0 then []
    else
      var last := |calls| - 1;
      Reports(env, l, calls[..last], accepts)
      + (if Reported(env, l, calls, last) && accepts(calls[last].error) then [calls[last].error.timestamp] else [])
  }

  lemma {:induction false} StampsConcat(xs: seq<Moment>, ys: seq<Moment>, accepts: ErrorOccurred -> bool)
    ensures Stamps(xs + ys, accepts) == Stamps(xs, accepts) + Stamps(ys, accepts)
  {
    if |ys| == 0 {
      assert xs + ys == xs;
    } else {
      assert (xs + ys)[..|xs + ys| - 1] == xs + ys[..|ys| - 1];
      StampsConcat(xs, ys[..|ys| - 1], accepts);
    }
  }

  lemma {:induction false} AfterBoth(b: Breaker, xs: seq<Moment>, ys: seq<Moment>)
    ensures After(b, xs + ys) == After(After(b, xs), ys)
  {
    hide Experience;
    if |ys| == 0 {
      assert xs + ys == xs;
    } else {
      assert (xs + ys)[..|xs + ys| - 1] == xs + ys[..|ys| - 1];
      AfterBoth(b, xs, ys[..|ys| - 1]);
    }
  }

  lemma OrderedOn(moments: seq<Moment>, more: seq<Moment>, now: Time, later: Time)
    requires AskedInOrder(moments, now) && now <= later && |more| <= 1
    requires |more| == 1 && more[0].Asked? ==> more[0].context.now == now
    ensures AskedInOrder(moments + more, later)
  {
  }

  lemma StampsOf(env: Desk.Env, l: LoopState, call: Call, moments: seq<Moment>, accepts: ErrorOccurred -> bool)
    requires TellsOf(env, l, call, moments)
    ensures Stamps(moments, accepts)
            == if call.ErrorReport? && l.bus.Up() && accepts(call.error) then [call.error.timestamp] else []
  {
    if |moments| == 1 {
      assert moments[..0] == [];
    }
  }

  /**
    The story of a breaker: in every run on a clock that does not go backwards, breaker `i` is as hearing the
    errors reported on a live bus, once each and in order, and being asked at times in order, leave it.
   */
  lemma {:induction false} RunTells(
      env: Desk.Env, l: LoopState, calls: seq<Call>, i: int, accepts: ErrorOccurred -> bool)
    returns (moments: seq<Moment>)
    requires Desk.Monotone(env.clock, false) && Logged(l) && 0 <= i < |l.breakers|
    requires forall k :: 0 <= k < |calls| ==> CallOk(calls[k])
    ensures var m := Run(env, l, calls);
            && |m.breakers| == |l.breakers| && m.breakers[i] == After(l.breakers[i], moments)
            && m.desk.ticks >= l.desk.ticks
            && AskedInOrder(moments, env.clock(m.desk.ticks))
            && Stamps(moments, accepts) == Reports(env, l, calls, accepts)
  {
    hide Next, After, Logged, AskedInOrder, TellsOf, Stamps;
    if |calls| == 0 {
      moments := [];
      NothingHappens(l.breakers[i]);
      NoMoments(env.clock(l.desk.ticks), accepts);
    } else {
      var before, last := Run(env, l, calls[..|calls| - 1]), calls[|calls| - 1];
      var past := RunTells(env, l, calls[..|calls| - 1], i, accepts);
      RunLogged(env, l, calls[..|calls| - 1]);
      LoggedChain(before);
      var more := CallTells(env, before, last, i);
      CallTicks(env, before, last);
      moments := past + more;
      AfterBoth(l.breakers[i], past, more);
      StampsConcat(past, more, accepts);
      StampsOf(env, before, last, more, accepts);
      TimesOf(env, before, last, more);
      OrderedOn(past, more, env.clock(before.desk.ticks), env.clock(Run(env, l, calls).desk.ticks));
    }
  }

  lemma NoMoments(now: Time, accepts: ErrorOccurred -> bool)
    ensures AskedInOrder([], now) && Stamps([], accepts) == []
  {
  }

  lemma TimesOf(env: Desk.Env, l: LoopState, call: Call, moments: seq<Moment>)
    requires TellsOf(env, l, call, moments)
    ensures |moments| <= 1
    ensures |moments| == 1 && moments[0].Asked? ==> moments[0].context.now == env.clock(l.desk.ticks)
  {
  }

  /** The calls that report, on a live bus, an error from one of the components, stamped at or after `cutoff`. */
  ghost function RecentErrors(
      env: Desk.Env, l: LoopState, calls: seq<Call>, components: Option<set<string>>, cutoff: Time): set<int>
  {
    set k | 0 <= k < |calls| && Reported(env, l, calls, k)
            && (components.None? || calls[k].error.component in components.value)
            && calls[k].error.timestamp >= cutoff
  }

  lemma {:induction false} ReportsCount(
      env: Desk.Env, l: LoopState, calls: seq<Call>, components: Option<set<string>>, cutoff: Time)
    ensures |Since(Reports(env, l, calls, Accepts(components)), Itself, cutoff)|
            == |RecentErrors(env, l, calls, components, cutoff)|
  {
    hide Since, Run, RecentErrors;
    if |calls| == 0 {
      NothingSince(Itself, cutoff);
      NoRecent(env, l, components, cutoff);
    } else {
      var init, last := calls[..|calls| - 1], |calls| - 1;
      ReportsCount(env, l, init, components, cutoff);
      RecentNext(env, l, calls, components, cutoff);
      if Counted(env, l, calls, components, last) {
        SinceAppend(Reports(env, l, init, Accepts(components)), calls[last].error.timestamp, Itself, cutoff);
      } else {
        assert Reports(env, l, calls, Accepts(components)) == Reports(env, l, init, Accepts(components));
      }
    }
  }

  ghost predicate Counted(
      env: Desk.Env, l: LoopState, calls: seq<Call>, components: Option<set<string>>, k: int)
    requires 0 <= k < |calls|
  {
    Reported(env, l, calls, k) && calls[k].ErrorReport? && Accepts(components)(calls[k].error)
  }

  lemma NoRecent(env: Desk.Env, l: LoopState, components: Option<set<string>>, cutoff: Time)
    ensures RecentErrors(env, l, [], components, cutoff) == {}
  {
  }

  lemma RecentNext(env: Desk.Env, l: LoopState, calls: seq<Call>, components: Option<set<string>>, cutoff: Time)
    requires |calls| > 0
    ensures var init, last := calls[..|calls| - 1], |calls| - 1;
            var before := RecentErrors(env, l, init, components, cutoff);
            && last !in before
            && RecentErrors(env, l, calls, components, cutoff)
               == if Counted(env, l, calls, components, last) && calls[last].error.timestamp >= cutoff
                  then before + {last} else before
  {
    hide Run;
    var init, last := calls[..|calls| - 1], |calls| - 1;
    var before := RecentErrors(env, l, init, components, cutoff);
    var recent := RecentErrors(env, l, calls, components, cutoff);
    forall k
      ensures k in recent
              <==> k in before
                   || (k == last && Counted(env, l, calls, components, last) && calls[last].error.timestamp >= cutoff)
    {
      if 0 <= k < last {
        assert init[..k] == calls[..k];
      }
    }
  }

  /**
    The error window of a running system: after every run on a clock that does not go backwards, however
    often it was asked on the way, breaker `i` trips exactly if at least `threshold` of the errors reported
    during the run, from its components and while the bus was up, are stamped at or after `now - window`.
   */
  lemma {:induction false} ErrorWindowInRuns(
      env: Desk.Env, breakers: seq<Breaker>, desk: Desk.DeskState, calls: seq<Call>, i: int, c: Context)
    requires Desk.Monotone(env.clock, false) && forall k :: 0 <= k < |calls| ==> CallOk(calls[k])
    requires 0 <= i < |breakers| && breakers[i].ErrorWindow? && breakers[i].errors == []
    requires env.clock(Run(env, InitialLoop(breakers, desk), calls).desk.ticks) <= c.now
    ensures var l, m, b := InitialLoop(breakers, desk), Run(env, InitialLoop(breakers, desk), calls), breakers[i];
            var recent := RecentErrors(env, l, calls, b.components, c.now - b.windowConfig.window);
            && |m.breakers| == |breakers|
            && Evaluate(m.breakers[i], c).trigger
               == if |recent| >= b.windowConfig.threshold then Some(b.action) else None
  {
    hide Run, Logged, Since, After, AskedInOrder, Stamps, Reports, RecentErrors;
    var l, b := InitialLoop(breakers, desk), breakers[i];
    InitialLogged(breakers, desk);
    var m := Run(env, l, calls);
    var moments := RunTells(env, l, calls, i, Accepts(b.components));
    OrderedLater(moments, env.clock(m.desk.ticks), c.now);
    ErrorsInvisible(b, moments, c.now);
    ReportsCount(env, l, calls, b.components, c.now - b.windowConfig.window);
  }

  lemma OrderedLater(moments: seq<Moment>, now: Time, later: Time)
    requires AskedInOrder(moments, now) && now <= later
    ensures AskedInOrder(moments, later)
  {
  }
}
