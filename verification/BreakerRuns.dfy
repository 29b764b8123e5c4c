/**
  When the stateful breakers trip, counted over everything they ever heard and were ever asked,
  and so over every run of the system.
 */
module BreakerRuns {
  import opened Domain
  import opened Breakers
  import opened RiskLoop
  import opened RiskSafety
  import Desk

  /** What happens to a breaker: an event on the bus, or being asked. */
  datatype Moment = Heard(event: Event) | Asked(context: Context)

  function Experience(b: Breaker, m: Moment): Breaker {
    match m
    case Heard(e) => Hear(b, e)
    case Asked(c) => Evaluate(b, c).next
  }

  function After(b: Breaker, moments: seq<Moment>): Breaker {
    if |moments| == 0 then b else Experience(After(b, moments[..|moments| - 1]), moments[|moments| - 1])
  }

  /** Asked at times that do not go backwards, and not later than `now`. */
  predicate AskedInOrder(moments: seq<Moment>, now: Time) {
    && (forall i, j :: 0 <= i < j < |moments| && moments[i].Asked? && moments[j].Asked? ==>
          moments[i].context.now <= moments[j].context.now)
    && (forall i :: 0 <= i < |moments| && moments[i].Asked? ==> moments[i].context.now <= now)
  }

  lemma OrderedBefore(moments: seq<Moment>, now: Time)
    requires AskedInOrder(moments, now) && |moments| > 0
    ensures AskedInOrder(moments[..|moments| - 1], now)
    ensures moments[|moments| - 1].Asked? ==>
              && AskedInOrder(moments[..|moments| - 1], moments[|moments| - 1].context.now)
              && moments[|moments| - 1].context.now <= now
  {
  }

  // ----- Errors

  /** An error from one of the components (any, if none are named) stamped at or after `cutoff`. */
  predicate InWindow(m: Moment, components: Option<set<string>>, cutoff: Time) {
    && m.Heard? && m.event.Errored?
    && (components.None? || m.event.error.component in components.value)
    && m.event.error.timestamp >= cutoff
  }

  /** The stamps of the errors among the moments that pass `accepts`, in order. */
  function Stamps(moments: seq<Moment>, accepts: ErrorOccurred -> bool): seq<Time> {
    if |moments| == 0 then []
    else
      var m := moments[|moments| - 1];
      Stamps(moments[..|moments| - 1], accepts)
      + (if m.Heard? && m.event.Errored? && accepts(m.event.error) then [m.event.error.timestamp] else [])
  }

  /** The moments that report such an error, stamped at or after `cutoff`. */
  function Reporting(moments: seq<Moment>, accepts: ErrorOccurred -> bool, cutoff: Time): set<int> {
    set i | 0 <= i < |moments| && moments[i].Heard? && moments[i].event.Errored?
            && accepts(moments[i].event.error) && moments[i].event.error.timestamp >= cutoff
  }

  lemma ReportingNext(moments: seq<Moment>, accepts: ErrorOccurred -> bool, cutoff: Time)
    requires |moments| > 0
    ensures var last, before := |moments| - 1, Reporting(moments[..|moments| - 1], accepts, cutoff);
            var m := moments[last];
            && last !in before
            && Reporting(moments, accepts, cutoff)
               == if m.Heard? && m.event.Errored? && accepts(m.event.error) && m.event.error.timestamp >= cutoff
                  then before + {last} else before
  {
  }

  /** The stamps in a window are as many as those moments. */
  lemma {:induction false} StampsCount(moments: seq<Moment>, accepts: ErrorOccurred -> bool, cutoff: Time)
    ensures |Since(Stamps(moments, accepts), Itself, cutoff)| == |Reporting(moments, accepts, cutoff)|
  {
    hide Since, Reporting;
    if |moments| == 0 {
      NothingSince(Itself, cutoff);
      NoneReporting(accepts, cutoff);
    } else {
      var init, m := moments[..|moments| - 1], moments[|moments| - 1];
      StampsCount(init, accepts, cutoff);
      ReportingNext(moments, accepts, cutoff);
      if m.Heard? && m.event.Errored? && accepts(m.event.error) {
        SinceAppend(Stamps(init, accepts), m.event.error.timestamp, Itself, cutoff);
      } else {
        assert Stamps(moments, accepts) == Stamps(init, accepts);
      }
    }
  }

  lemma NoneReporting(accepts: ErrorOccurred -> bool, cutoff: Time)
    ensures Reporting([], accepts, cutoff) == {}
  {
  }

  function Accepts(components: Option<set<string>>): ErrorOccurred -> bool {
    (e: ErrorOccurred) => components.None? || e.component in components.value
  }

  /** What a moment adds to the stamps. */
  function StampOf(m: Moment, accepts: ErrorOccurred -> bool): seq<Time> {
    if m.Heard? && m.event.Errored? && accepts(m.event.error) then [m.event.error.timestamp] else []
  }

  lemma StampsNext(moments: seq<Moment>, accepts: ErrorOccurred -> bool)
    requires |moments| > 0
    ensures Stamps(moments, accepts)
            == Stamps(moments[..|moments| - 1], accepts) + StampOf(moments[|moments| - 1], accepts)
  {
  }

  /** However often the breaker pruned, from its last evaluation on it is as if it had kept every error. */
  lemma {:induction false} ErrorsInvisible(b: Breaker, moments: seq<Moment>, now: Time)
    requires b.ErrorWindow? && b.errors == [] && AskedInOrder(moments, now)
    ensures var a := After(b, moments);
            && a.ErrorWindow? && a == b.(errors := a.errors)
            && PruningInvisible(a.errors, Stamps(moments, Accepts(b.components)), now - b.windowConfig.window)
  {
    hide PruningInvisible, AskedInOrder, Stamps, StampOf, Hear, Evaluate, Accepts;
    var accepts := Accepts(b.components);
    if |moments| == 0 {
      NoStamps(accepts);
      EqualsInvisible([], now - b.windowConfig.window);
    } else {
      var before, m := moments[..|moments| - 1], moments[|moments| - 1];
      OrderedBefore(moments, now);
      StampsNext(moments, accepts);
      match m
      case Heard(e) =>
        ErrorsInvisible(b, before, now);
        ErrorHeard(After(b, before), e, Stamps(before, accepts), now);
      case Asked(c) =>
        ErrorsInvisible(b, before, c.now);
        ErrorAsked(After(b, before), c, Stamps(before, accepts), now);
    }
  }

  lemma NoStamps(accepts: ErrorOccurred -> bool)
    ensures Stamps([], accepts) == []
  {
  }

  lemma ErrorHeard(a: Breaker, e: Event, stamps: seq<Time>, now: Time)
    requires a.ErrorWindow? && PruningInvisible(a.errors, stamps, now - a.windowConfig.window)
    ensures var h := Hear(a, e);
            && h.ErrorWindow? && h == a.(errors := h.errors)
            && PruningInvisible(h.errors, stamps + StampOf(Heard(e), Accepts(a.components)),
                                now - a.windowConfig.window)
  {
    hide PruningInvisible;
    if e.Errored? && Accepts(a.components)(e.error) {
      SeenKeepsInvisible(a.errors, stamps, now - a.windowConfig.window, e.error.timestamp);
    } else {
      assert stamps + StampOf(Heard(e), Accepts(a.components)) == stamps;
    }
  }

  lemma ErrorAsked(a: Breaker, c: Context, stamps: seq<Time>, now: Time)
    requires a.ErrorWindow? && PruningInvisible(a.errors, stamps, c.now - a.windowConfig.window) && c.now <= now
    ensures var n := Evaluate(a, c).next;
            && n.ErrorWindow? && n == a.(errors := n.errors)
            && PruningInvisible(n.errors, stamps + StampOf(Asked(c), Accepts(a.components)),
                                now - a.windowConfig.window)
  {
    hide PruningInvisible, Since;
    var window := a.windowConfig.window;
    PruneKeepsInvisible(a.errors, stamps, c.now - window, c.now - window);
    InvisibleLater(Since(a.errors, Itself, c.now - window), stamps, c.now - window, now - window);
    assert stamps + StampOf(Asked(c), Accepts(a.components)) == stamps;
  }

  lemma InvisibleLater(held: seq<Time>, accepted: seq<Time>, from: Time, later: Time)
    requires PruningInvisible(held, accepted, from) && from <= later
    ensures PruningInvisible(held, accepted, later)
  {
  }

  /**
    The error window, over every run: whatever the breaker heard and whenever it was asked, it trips exactly
    if at least `threshold` of all the errors ever reported to it, from its components, are stamped at or
    after `now - window`.
   */
  lemma {:induction false} ErrorWindowTripsIff(b: Breaker, moments: seq<Moment>, c: Context)
    requires b.ErrorWindow? && b.errors == [] && AskedInOrder(moments, c.now)
    ensures var cutoff := c.now - b.windowConfig.window;
            var recent := set i | 0 <= i < |moments| && InWindow(moments[i], b.components, cutoff);
            Evaluate(After(b, moments), c).trigger
            == if |recent| >= b.windowConfig.threshold then Some(b.action) else None
  {
    hide Since, After, AskedInOrder;
    var cutoff := c.now - b.windowConfig.window;
    var accepts := Accepts(b.components);
    ErrorsInvisible(b, moments, c.now);
    StampsCount(moments, accepts, cutoff);
    assert (set i | 0 <= i < |moments| && InWindow(moments[i], b.components, cutoff))
        == Reporting(moments, accepts, cutoff);
  }

  // ----- Rate limits

  predicate MentionedAt(text: string, part: string, i: int) {
    0 <= i && i + |part| <= |text| && text[i..i + |part|] == part
  }

  /** `part` occurs in `text`. */
  ghost predicate Mentions(text: string, part: string) {
    exists i :: MentionedAt(text, part, i)
  }

  lemma MentionedLater(text: string, part: string, i: int)
    requires |text| > 0
    ensures MentionedAt(text[1..], part, i) <==> i >= 0 && MentionedAt(text, part, i + 1)
  {
    if 0 <= i && i + |part| <= |text[1..]| {
      assert text[1..][i..i + |part|] == text[i + 1..i + 1 + |part|];
    }
  }

  /** The search finds the exception name exactly if it occurs. */
  lemma {:induction false} ContainsIff(text: string, part: string)
    ensures Contains(text, part) <==> Mentions(text, part)
  {
    hide Contains, MentionedAt;
    AtStart(text, part);
    SearchOn(text, part);
    if |text| > 0 {
      ContainsIff(text[1..], part);
      if Mentions(text[1..], part) {
        var i :| MentionedAt(text[1..], part, i);
        MentionedLater(text, part, i);
      }
      if Mentions(text, part) {
        var i :| MentionedAt(text, part, i);
        Within(text, part, i);
        if i > 0 {
          MentionedLater(text, part, i - 1);
        }
      }
    } else if Mentions(text, part) {
      var i :| MentionedAt(text, part, i);
      Within(text, part, i);
    }
  }

  lemma AtStart(text: string, part: string)
    ensures MentionedAt(text, part, 0) ==> Contains(text, part)
  {
  }

  lemma Within(text: string, part: string, i: int)
    requires MentionedAt(text, part, i)
    ensures 0 <= i && i + |part| <= |text|
  {
  }

  /** The search looks at the start, then further on. */
  lemma SearchOn(text: string, part: string)
    ensures Contains(text, part)
            <==> MentionedAt(text, part, 0) || (|text| > 0 && |part| <= |text| && Contains(text[1..], part))
  {
  }

  function Matches(part: string): ErrorOccurred -> bool {
    (e: ErrorOccurred) => Contains(e.exceptionType, part)
  }

  /** No evaluation among the moments tripped. */
  predicate Quiet(b: Breaker, moments: seq<Moment>) {
    forall i :: 0 <= i < |moments| && moments[i].Asked? ==>
                  Evaluate(After(b, moments[..i]), moments[i].context).trigger == None
  }

  lemma QuietBefore(b: Breaker, moments: seq<Moment>)
    requires |moments| > 0 && Quiet(b, moments)
    ensures Quiet(b, moments[..|moments| - 1])
    ensures moments[|moments| - 1].Asked? ==>
              Evaluate(After(b, moments[..|moments| - 1]), moments[|moments| - 1].context).trigger == None
  {
    hide Evaluate, After;
    var before := moments[..|moments| - 1];
    forall i | 0 <= i < |before| && before[i].Asked?
      ensures Evaluate(After(b, before[..i]), before[i].context).trigger == None
    {
      assert before[..i] == moments[..i] && before[i] == moments[i];
    }
  }

  lemma {:induction false} RateInvisible(b: Breaker, moments: seq<Moment>, now: Time)
    requires b.RateLimit? && b.rate == RATE_START && AskedInOrder(moments, now) && Quiet(b, moments)
    ensures var a := After(b, moments);
            && a.RateLimit? && a == b.(rate := RateState(a.rate.errors, None))
            && PruningInvisible(a.rate.errors, Stamps(moments, Matches(b.exceptionMatch)), now - b.rateConfig.window)
  {
    hide PruningInvisible, AskedInOrder, Quiet, Stamps, StampOf, Hear, Evaluate, Matches;
    var matches := Matches(b.exceptionMatch);
    if |moments| == 0 {
      NoStamps(matches);
      EqualsInvisible([], now - b.rateConfig.window);
    } else {
      var before, m := moments[..|moments| - 1], moments[|moments| - 1];
      OrderedBefore(moments, now);
      QuietBefore(b, moments);
      StampsNext(moments, matches);
      match m
      case Heard(e) =>
        RateInvisible(b, before, now);
        RateHeard(After(b, before), e, Stamps(before, matches), now);
      case Asked(c) =>
        RateInvisible(b, before, c.now);
        RateAsked(After(b, before), c, Stamps(before, matches), now);
    }
  }

  lemma RateHeard(a: Breaker, e: Event, stamps: seq<Time>, now: Time)
    requires a.RateLimit? && a.rate.trippedUntil == None
    requires PruningInvisible(a.rate.errors, stamps, now - a.rateConfig.window)
    ensures var h := Hear(a, e);
            && h.RateLimit? && h == a.(rate := RateState(h.rate.errors, None))
            && PruningInvisible(h.rate.errors, stamps + StampOf(Heard(e), Matches(a.exceptionMatch)),
                                now - a.rateConfig.window)
  {
    hide PruningInvisible, Contains;
    if e.Errored? && Matches(a.exceptionMatch)(e.error) {
      SeenKeepsInvisible(a.rate.errors, stamps, now - a.rateConfig.window, e.error.timestamp);
    } else {
      assert stamps + StampOf(Heard(e), Matches(a.exceptionMatch)) == stamps;
    }
  }

  lemma RateAsked(a: Breaker, c: Context, stamps: seq<Time>, now: Time)
    requires a.RateLimit? && a.rate.trippedUntil == None && c.now <= now && Evaluate(a, c).trigger == None
    requires PruningInvisible(a.rate.errors, stamps, c.now - a.rateConfig.window)
    ensures var n := Evaluate(a, c).next;
            && n.RateLimit? && n == a.(rate := RateState(n.rate.errors, None))
            && PruningInvisible(n.rate.errors, stamps + StampOf(Asked(c), Matches(a.exceptionMatch)),
                                now - a.rateConfig.window)
  {
    hide PruningInvisible, Since;
    var window := a.rateConfig.window;
    PruneKeepsInvisible(a.rate.errors, stamps, c.now - window, c.now - window);
    InvisibleLater(Since(a.rate.errors, Itself, c.now - window), stamps, c.now - window, now - window);
    assert stamps + StampOf(Asked(c), Matches(a.exceptionMatch)) == stamps;
  }

  /**
    The rate limit: until its first trip it trips exactly if at least `threshold` of all the errors ever
    reported to it whose type mentions its text are stamped at or after `now - window`; the cooldown
    then starts at `now`.
   */
  lemma {:induction false} RateLimitTripsIff(b: Breaker, moments: seq<Moment>, c: Context)
    requires b.RateLimit? && b.rate == RATE_START && AskedInOrder(moments, c.now) && Quiet(b, moments)
    ensures var cutoff := c.now - b.rateConfig.window;
            var recent := set i | 0 <= i < |moments| && moments[i].Heard? && moments[i].event.Errored?
                                  && Mentions(moments[i].event.error.exceptionType, b.exceptionMatch)
                                  && moments[i].event.error.timestamp >= cutoff;
            var v := Evaluate(After(b, moments), c);
            && v.trigger == (if |recent| >= b.rateConfig.threshold then Some(b.action) else None)
            && v.next.RateLimit?
            && v.next.rate.trippedUntil == (if v.trigger.Some? then Some(c.now + b.rateConfig.cooldown) else None)
  {
    hide Since, After, AskedInOrder, Quiet, Contains, Mentions;
    var cutoff, matches := c.now - b.rateConfig.window, Matches(b.exceptionMatch);
    RateInvisible(b, moments, c.now);
    StampsCount(moments, matches, cutoff);
    forall text
      ensures Contains(text, b.exceptionMatch) <==> Mentions(text, b.exceptionMatch)
    {
      ContainsIff(text, b.exceptionMatch);
    }
    assert (set i | 0 <= i < |moments| && moments[i].Heard? && moments[i].event.Errored?
                    && Mentions(moments[i].event.error.exceptionType, b.exceptionMatch)
                    && moments[i].event.error.timestamp >= cutoff)
        == Reporting(moments, matches, cutoff);
  }

  /**
    After a trip the rate limit trips at every evaluation before the end of the cooldown, whatever it hears;
    the first one after that does not trip, and leaves the breaker as it was built.
   */
  lemma {:induction false} RateLimitCoolsDown(b: Breaker, c: Context, moments: seq<Moment>, d: Context)
    requires b.RateLimit? && b.rate.trippedUntil == None && Evaluate(b, c).trigger.Some?
    requires forall i :: 0 <= i < |moments| && moments[i].Asked? ==>
               moments[i].context.now < c.now + b.rateConfig.cooldown
    ensures var t := After(Evaluate(b, c).next, moments);
            Evaluate(t, d) == if d.now < c.now + b.rateConfig.cooldown then Verdict(t, Some(b.action))
                              else Verdict(b.(rate := RATE_START), None)
  {
    hide Since, Contains;
    KeepsCooling(Evaluate(b, c).next, c.now + b.rateConfig.cooldown, moments);
    NothingSince(Itself, d.now - b.rateConfig.window);
  }

  lemma {:induction false} KeepsCooling(b: Breaker, until: Time, moments: seq<Moment>)
    requires b.RateLimit? && b.rate.trippedUntil == Some(until)
    requires forall i :: 0 <= i < |moments| && moments[i].Asked? ==> moments[i].context.now < until
    ensures var t := After(b, moments);
            t.RateLimit? && t == b.(rate := RateState(t.rate.errors, Some(until)))
  {
    hide Since, Contains;
    if |moments| > 0 {
      KeepsCooling(b, until, moments[..|moments| - 1]);
    }
  }

  // ----- Drawdowns

  predicate Releases(m: Moment) {
    m.Heard? && m.event.StateChanged? && m.event.transition.before == Quarantined
    && m.event.transition.after == Reconciling
  }

  /** The breaker was shown `equity`, now or at an evaluation within the window. */
  ghost predicate Shown(moments: seq<Moment>, c: Context, window: nat, equity: real) {
    equity == c.total
    || exists i :: 0 <= i < |moments| && moments[i].Asked?
                   && moments[i].context.now >= c.now - window && moments[i].context.total == equity
  }

  ghost predicate PeakShown(moments: seq<Moment>, c: Context, window: nat, peak: real) {
    Shown(moments, c, window, peak) && forall equity :: Shown(moments, c, window, equity) ==> equity <= peak
  }

  ghost predicate Observed(moments: seq<Moment>, o: Observation) {
    exists i :: 0 <= i < |moments| && moments[i].Asked?
                && moments[i].context.now == o.time && moments[i].context.total == o.equity
  }

  /** Up to what has left the window, the breaker's history is what it was shown. */
  lemma {:induction false} HistoryIsShown(b: Breaker, moments: seq<Moment>, now: Time)
    requires b.Drawdown? && b.drawdown == DRAWDOWN_START && AskedInOrder(moments, now) && Quiet(b, moments)
    requires forall i :: 0 <= i < |moments| ==> !Releases(moments[i])
    ensures var a := After(b, moments);
            && a.Drawdown? && a == b.(drawdown := DrawdownState(a.drawdown.history, false))
            && (forall o: Observation :: o.time >= now - b.drawdownConfig.window ==>
                  (o in a.drawdown.history <==> Observed(moments, o)))
  {
    hide Since, AskedInOrder, Quiet, Observed, PeakTrips, Recorded;
    var window := b.drawdownConfig.window;
    if |moments| == 0 {
      forall o
        ensures !Observed(moments, o)
      {
        NothingObserved(o);
      }
    } else {
      var before, m := moments[..|moments| - 1], moments[|moments| - 1];
      OrderedBefore(moments, now);
      QuietBefore(b, moments);
      HistoryIsShown(b, before, if m.Asked? then m.context.now else now);
      var a := After(b, moments);
      var past := After(b, before).drawdown.history;
      assert m.Asked? ==> a.drawdown.history == Recorded(b.drawdownConfig, past, m.context.now, m.context.total);
      forall o: Observation | o.time >= now - window
        ensures o in a.drawdown.history <==> Observed(moments, o)
      {
        ObservedNext(moments, o);
        if m.Asked? {
          RecordedMembers(b.drawdownConfig, past, m.context.now, m.context.total, o);
        }
      }
    }
  }

  lemma RecordedMembers(cfg: DrawdownConfig, history: seq<Observation>, now: Time, equity: real, o: Observation)
    ensures o in Recorded(cfg, history, now, equity)
            <==> o.time >= now - cfg.window && (o in history || o == Observation(now, equity))
  {
    hide Since;
    SinceMembers(history + [Observation(now, equity)], SeenAt, now - cfg.window, o);
  }

  lemma NothingObserved(o: Observation)
    ensures !Observed([], o)
  {
  }

  lemma ObservedNext(moments: seq<Moment>, o: Observation)
    requires |moments| > 0
    ensures var m := moments[|moments| - 1];
            Observed(moments, o)
            <==> Observed(moments[..|moments| - 1], o)
                 || (m.Asked? && o == Observation(m.context.now, m.context.total))
  {
    var before := moments[..|moments| - 1];
    if Observed(moments, o) {
      var i :| 0 <= i < |moments| && moments[i].Asked?
               && moments[i].context.now == o.time && moments[i].context.total == o.equity;
      assert i < |before| ==> before[i] == moments[i];
    }
    if Observed(before, o) {
      var i :| 0 <= i < |before| && before[i].Asked?
               && before[i].context.now == o.time && before[i].context.total == o.equity;
      assert before[i] == moments[i];
    }
  }

  /**
    The drawdown: until it first trips, it trips exactly if the greatest equity it was shown in the window,
    this one included, is positive and more than the threshold of it has been lost.  The evaluation that
    finds so already answers so.
   */
  lemma {:induction false} DrawdownTripsIff(b: Breaker, moments: seq<Moment>, c: Context, peak: real)
    requires b.Drawdown? && b.drawdown == DRAWDOWN_START && AskedInOrder(moments, c.now) && Quiet(b, moments)
    requires forall i :: 0 <= i < |moments| ==> !Releases(moments[i])
    requires PeakShown(moments, c, b.drawdownConfig.window, peak)
    ensures Evaluate(After(b, moments), c).trigger
            == if peak > 0.0 && (peak - c.total) / peak > b.drawdownConfig.threshold then Some(b.action) else None
  {
    hide Since, After, AskedInOrder, Quiet, Observed, Recorded, Shown;
    HistoryIsShown(b, moments, c.now);
    var history := After(b, moments).drawdown.history;
    var kept := Recorded(b.drawdownConfig, history, c.now, c.total);
    forall o: Observation
      ensures o in kept ==> o.equity <= peak
    {
      RecordedMembers(b.drawdownConfig, history, c.now, c.total, o);
      if o in kept {
        KeptIsShown(moments, c, b.drawdownConfig.window, o);
      }
    }
    ShownIsKept(moments, c, b.drawdownConfig.window, peak);
    var o: Observation :| o.equity == peak && o.time >= c.now - b.drawdownConfig.window
                          && (o == Observation(c.now, c.total) || Observed(moments, o));
    RecordedMembers(b.drawdownConfig, history, c.now, c.total, o);
    PeakIs(kept, o);
  }

  lemma KeptIsShown(moments: seq<Moment>, c: Context, window: nat, o: Observation)
    requires o.time >= c.now - window && (o == Observation(c.now, c.total) || Observed(moments, o))
    ensures Shown(moments, c, window, o.equity)
  {
  }

  lemma ShownIsKept(moments: seq<Moment>, c: Context, window: nat, equity: real)
    requires Shown(moments, c, window, equity)
    ensures exists o: Observation :: o.equity == equity && o.time >= c.now - window
                                     && (o == Observation(c.now, c.total) || Observed(moments, o))
  {
    if equity == c.total {
      assert Observation(c.now, c.total).equity == equity;
    } else {
      var i :| 0 <= i < |moments| && moments[i].Asked?
               && moments[i].context.now >= c.now - window && moments[i].context.total == equity;
      var o := Observation(moments[i].context.now, moments[i].context.total);
      assert Observed(moments, o) && o.equity == equity;
    }
  }

  lemma PeakIs(history: seq<Observation>, top: Observation)
    requires |history| > 0 && top in history
    requires forall o :: o in history ==> o.equity <= top.equity
    ensures Peak(history) == top.equity
  {
    var i :| 0 <= i < |history| && history[i].equity == Peak(history);
    assert history[i] in history;
    var j :| 0 <= j < |history| && history[j] == top;
  }

  /** There always is such a greatest equity. */
  lemma {:induction false} PeakIsShown(moments: seq<Moment>, c: Context, window: nat)
    ensures exists peak :: PeakShown(moments, c, window, peak)
  {
    hide Shown;
    if |moments| == 0 {
      forall equity
        ensures Shown(moments, c, window, equity) <==> equity == c.total
      {
        ShownFirst(c, window, equity);
      }
      assert PeakShown(moments, c, window, c.total);
    } else {
      var before, m := moments[..|moments| - 1], moments[|moments| - 1];
      PeakIsShown(before, c, window);
      var peak :| PeakShown(before, c, window, peak);
      forall equity
        ensures Shown(moments, c, window, equity)
                <==> Shown(before, c, window, equity)
                     || (m.Asked? && m.context.now >= c.now - window && m.context.total == equity)
      {
        ShownNext(moments, c, window, equity);
      }
      var higher := m.Asked? && m.context.now >= c.now - window && m.context.total > peak;
      var top := if higher then m.context.total else peak;
      assert PeakShown(moments, c, window, top);
    }
  }

  lemma ShownFirst(c: Context, window: nat, equity: real)
    ensures Shown([], c, window, equity) <==> equity == c.total
  {
  }

  lemma ShownNext(moments: seq<Moment>, c: Context, window: nat, equity: real)
    requires |moments| > 0
    ensures var m := moments[|moments| - 1];
            Shown(moments, c, window, equity)
            <==> Shown(moments[..|moments| - 1], c, window, equity)
                 || (m.Asked? && m.context.now >= c.now - window && m.context.total == equity)
  {
    var before := moments[..|moments| - 1];
    if Shown(moments, c, window, equity) && equity != c.total {
      var i :| 0 <= i < |moments| && moments[i].Asked?
               && moments[i].context.now >= c.now - window && moments[i].context.total == equity;
      assert i < |before| ==> before[i] == moments[i];
    }
    if Shown(before, c, window, equity) && equity != c.total {
      var i :| 0 <= i < |before| && before[i].Asked?
               && before[i].context.now >= c.now - window && before[i].context.total == equity;
      assert before[i] == moments[i];
    }
  }

  /** Once it has tripped it trips at every evaluation until a release, which leaves it as it was built. */
  lemma {:induction false} DrawdownLatches(b: Breaker, c: Context, moments: seq<Moment>, d: Context)
    requires b.Drawdown? && Evaluate(b, c).trigger.Some?
    requires forall i :: 0 <= i < |moments| ==> !Releases(moments[i])
    ensures var t := After(Evaluate(b, c).next, moments);
            && Evaluate(t, d) == Verdict(t, Some(b.action))
            && (forall m :: Releases(m) ==> Experience(t, m) == b.(drawdown := DRAWDOWN_START))
  {
    hide PeakTrips, Recorded;
    LatchKept(Evaluate(b, c).next, moments);
  }

  lemma {:induction false} LatchKept(b: Breaker, moments: seq<Moment>)
    requires b.Drawdown? && b.drawdown.latched
    requires forall i :: 0 <= i < |moments| ==> !Releases(moments[i])
    ensures After(b, moments) == b
  {
    if |moments| > 0 {
      LatchKept(b, moments[..|moments| - 1]);
    }
  }
}
