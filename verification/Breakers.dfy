/**
  The stateful circuit breakers: drawdown (latching), rate limit (cooling down) and error window.

  All three throw old observations away as they go.  Each is shown to decide, on every run with
  evaluation times that do not go backwards, exactly what it would decide had it kept everything.
 */
module Breakers {
  import opened Domain

  // ----- Windows

  /** The elements stamped at or after `cutoff`, in order. */
  function Since<T>(xs: seq<T>, stamp: T -> Time, cutoff: Time): seq<T> {
    if |xs| == 0 then []
    else
      var x := xs[|xs| - 1];
      Since(xs[..|xs| - 1], stamp, cutoff) + (if stamp(x) >= cutoff then [x] else [])
  }

  lemma {:induction false} SinceAppend<T>(xs: seq<T>, x: T, stamp: T -> Time, cutoff: Time)
    ensures Since(xs + [x], stamp, cutoff) == Since(xs, stamp, cutoff) + (if stamp(x) >= cutoff then [x] else [])
  {
    assert (xs + [x])[..|xs|] == xs;
  }

  lemma NothingSince<T>(stamp: T -> Time, cutoff: Time)
    ensures Since([], stamp, cutoff) == []
  {
  }

  lemma {:induction false} SinceConcat<T>(xs: seq<T>, ys: seq<T>, stamp: T -> Time, cutoff: Time)
    ensures Since(xs + ys, stamp, cutoff) == Since(xs, stamp, cutoff) + Since(ys, stamp, cutoff)
  {
    if |ys| == 0 {
      assert xs + ys == xs;
    } else {
      var init, y := ys[..|ys| - 1], ys[|ys| - 1];
      assert xs + ys == (xs + init) + [y] && ys == init + [y];
      SinceConcat(xs, init, stamp, cutoff);
      SinceAppend(xs + init, y, stamp, cutoff);
      SinceAppend(init, y, stamp, cutoff);
    }
  }

  /** Pruning earlier at an older cutoff loses nothing that a newer cutoff would keep. */
  lemma {:induction false} PruneAgain<T>(xs: seq<T>, stamp: T -> Time, older: Time, newer: Time)
    requires older <= newer
    ensures Since(Since(xs, stamp, older), stamp, newer) == Since(xs, stamp, newer)
  {
    if |xs| > 0 {
      var init, x := xs[..|xs| - 1], xs[|xs| - 1];
      PruneAgain(init, stamp, older, newer);
      if stamp(x) >= older {
        assert Since(xs, stamp, older) == Since(init, stamp, older) + [x];
        SinceAppend(Since(init, stamp, older), x, stamp, newer);
      } else {
        assert Since(xs, stamp, older) == Since(init, stamp, older);
        assert Since(xs, stamp, newer) == Since(init, stamp, newer);
      }
    }
  }

  lemma {:induction false} SinceMembers<T>(xs: seq<T>, stamp: T -> Time, cutoff: Time, x: T)
    ensures x in Since(xs, stamp, cutoff) <==> x in xs && stamp(x) >= cutoff
  {
    if |xs| > 0 {
      SinceMembers(xs[..|xs| - 1], stamp, cutoff, x);
      assert xs == xs[..|xs| - 1] + [xs[|xs| - 1]];
    }
  }

  type AtLeastOne = n: int | n >= 1 witness 1

  // ----- Drawdown

  datatype Observation = Observation(time: Time, equity: real)

  function SeenAt(o: Observation): Time {
    o.time
  }

  datatype DrawdownConfig = DrawdownConfig(threshold: real, window: nat)

  datatype DrawdownState = DrawdownState(history: seq<Observation>, latched: bool)

  const DRAWDOWN_START := DrawdownState([], false)

  /** `max` over the equities; the history it is taken of is never empty. */
  function Peak(history: seq<Observation>): (peak: real)
    requires |history| > 0
    ensures exists i :: 0 <= i < |history| && history[i].equity == peak
    ensures forall i :: 0 <= i < |history| ==> history[i].equity <= peak
  {
    var last := history[|history| - 1].equity;
    if |history| == 1 then last
    else
      var before := Peak(history[..|history| - 1]);
      assert forall i :: 0 <= i < |history| - 1 ==> history[..|history| - 1][i] == history[i];
      if before >= last then before else last
  }

  /** The test on the peak: a positive peak and a relative loss above the threshold. */
  predicate PeakTrips(history: seq<Observation>, equity: real, threshold: real)
    requires |history| > 0
  {
    var peak := Peak(history);
    peak > 0.0 && (peak - equity) / peak > threshold
  }

  lemma RecordedKept(history: seq<Observation>, now: Time, equity: real, window: nat)
    ensures |Since(history + [Observation(now, equity)], SeenAt, now - window)| > 0
  {
    SinceAppend(history, Observation(now, equity), SeenAt, now - window);
  }

  /** Record and prune. */
  function Recorded(cfg: DrawdownConfig, history: seq<Observation>, now: Time, equity: real): (kept: seq<Observation>)
    ensures |kept| > 0
  {
    RecordedKept(history, now, equity, cfg.window);
    Since(history + [Observation(now, equity)], SeenAt, now - cfg.window)
  }

  /** `DrawdownBreaker.evaluate`: the new state; it trips exactly if that state is latched. */
  function EvaluateDrawdown(cfg: DrawdownConfig, s: DrawdownState, now: Time, equity: real): DrawdownState {
    if s.latched then s
    else
      var kept := Recorded(cfg, s.history, now, equity);
      DrawdownState(kept, PeakTrips(kept, equity, cfg.threshold))
  }

  /** Some positive equity seen in the window has since been lost by more than the threshold. */
  ghost predicate SomeDrop(history: seq<Observation>, equity: real, threshold: real) {
    exists i :: 0 <= i < |history| && Drop(history[i].equity, equity, threshold)
  }

  predicate Drop(before: real, equity: real, threshold: real) {
    before > 0.0 && before - equity > threshold * before
  }

  lemma PeakTripsIsDrop(history: seq<Observation>, equity: real, threshold: real)
    requires |history| > 0
    ensures PeakTrips(history, equity, threshold) <==> Drop(Peak(history), equity, threshold)
  {
    hide Peak;
    if Peak(history) > 0.0 {
      RelativeLoss(Peak(history) - equity, Peak(history), threshold);
    }
  }

  lemma RelativeLoss(loss: real, peak: real, threshold: real)
    requires peak > 0.0
    ensures loss / peak > threshold <==> loss > threshold * peak
  {
    QuotientProduct(loss, peak);
    if loss / peak > threshold {
      assert loss == loss / peak * peak > threshold * peak;
    } else {
      ProductMonotone(loss / peak, threshold, peak);
    }
  }

  lemma DropGrows(before: real, peak: real, equity: real, threshold: real)
    requires before <= peak && Drop(before, equity, threshold) && threshold <= 1.0
    ensures Drop(peak, equity, threshold)
  {
    var kept := 1.0 - threshold;
    assert before - threshold * before == Product(before, kept);
    assert peak - threshold * peak == Product(peak, kept);
    ProductMonotone(before, peak, kept);
  }

  lemma NeverDrops(before: real, equity: real, threshold: real)
    requires threshold > 1.0 && equity >= 0.0
    ensures !Drop(before, equity, threshold)
  {
    if before > 0.0 {
      ProductMonotone(1.0, threshold, before);
    }
  }

  lemma PeakFindsDrop(history: seq<Observation>, equity: real, threshold: real)
    requires |history| > 0 && (threshold <= 1.0 || equity >= 0.0)
    ensures PeakTrips(history, equity, threshold) <==> SomeDrop(history, equity, threshold)
  {
    PeakTripsIsDrop(history, equity, threshold);
    if threshold > 1.0 {
      forall before
        ensures !Drop(before, equity, threshold)
      {
        NeverDrops(before, equity, threshold);
      }
    } else if SomeDrop(history, equity, threshold) {
      var i :| 0 <= i < |history| && Drop(history[i].equity, equity, threshold);
      DropGrows(history[i].equity, Peak(history), equity, threshold);
    }
  }

  lemma LowAndHigh(equity: real, threshold: real, low: real, high: real)
    requires threshold > 1.0 && equity < 0.0
    requires low == -equity / (2.0 * (threshold - 1.0)) && high == -equity / (threshold - 1.0)
    ensures 0.0 < low < high && Drop(low, equity, threshold) && !Drop(high, equity, threshold)
  {
    var t := threshold - 1.0;
    assert high * t == -equity;
    assert low * (2.0 * t) == -equity;
    assert low * t + low * t == -equity;
    assert threshold * low == low + low * t && threshold * high == high + high * t;
    assert (high - 2.0 * low) * t == 0.0;
    assert high == 2.0 * low;
  }

  datatype DrawdownEvent =
    | Evaluated(now: Time, equity: real)
    | HumanAcknowledged

  /** A breaker together with everything it observed since the last reset, and when it last did. */
  datatype Watched = Watched(state: DrawdownState, seen: seq<Observation>, last: Time)

  function WatchStep(cfg: DrawdownConfig, w: Watched, e: DrawdownEvent): Watched {
    match e
    case HumanAcknowledged => w.(state := DRAWDOWN_START, seen := [])
    case Evaluated(now, equity) =>
      if w.state.latched then w
      else Watched(EvaluateDrawdown(cfg, w.state, now, equity), w.seen + [Observation(now, equity)], now)
  }

  function Watch(cfg: DrawdownConfig, start: Time, events: seq<DrawdownEvent>): Watched {
    if |events| == 0 then Watched(DRAWDOWN_START, [], start)
    else WatchStep(cfg, Watch(cfg, start, events[..|events| - 1]), events[|events| - 1])
  }

  /** Time of the last evaluation, `start` before the first. */
  function LastEvaluation(start: Time, events: seq<DrawdownEvent>): Time {
    if |events| == 0 then start
    else if events[|events| - 1].Evaluated? then events[|events| - 1].now
    else LastEvaluation(start, events[..|events| - 1])
  }

  /** Evaluation times begin no earlier than `start` and do not go backwards. */
  predicate EvaluationsOrdered(start: Time, events: seq<DrawdownEvent>) {
    |events| == 0
    || (var before, e := events[..|events| - 1], events[|events| - 1];
        EvaluationsOrdered(start, before) && (e.Evaluated? ==> LastEvaluation(start, before) <= e.now))
  }

  lemma {:induction false} WatchIsPruned(cfg: DrawdownConfig, start: Time, events: seq<DrawdownEvent>)
    requires EvaluationsOrdered(start, events)
    ensures var w := Watch(cfg, start, events);
            && w.state.history == Since(w.seen, SeenAt, w.last - cfg.window)
            && w.last <= LastEvaluation(start, events)
  {
    hide Since, Recorded, PeakTrips;
    if |events| == 0 {
      NothingSince(SeenAt, start - cfg.window);
    } else {
      var before, e := events[..|events| - 1], events[|events| - 1];
      WatchIsPruned(cfg, start, before);
      var w := Watch(cfg, start, before);
      NothingSince(SeenAt, w.last - cfg.window);
      if e.Evaluated? && !w.state.latched {
        PruneThenRecord(cfg, w.seen, w.last, e.now, e.equity);
      }
    }
  }

  lemma {:induction false} PruneThenRecord(cfg: DrawdownConfig, seen: seq<Observation>, last: Time, now: Time,
      equity: real)
    requires last <= now
    ensures Recorded(cfg, Since(seen, SeenAt, last - cfg.window), now, equity)
            == Since(seen + [Observation(now, equity)], SeenAt, now - cfg.window)
  {
    var o, older, newer := Observation(now, equity), last - cfg.window, now - cfg.window;
    SinceAppend(Since(seen, SeenAt, older), o, SeenAt, newer);
    SinceAppend(seen, o, SeenAt, newer);
    PruneAgain(seen, SeenAt, older, newer);
  }

  /** Everything seen since the last reset that is still in the window, the equity under test included. */
  function WindowOf(cfg: DrawdownConfig, w: Watched, now: Time, equity: real): seq<Observation> {
    Since(w.seen + [Observation(now, equity)], SeenAt, now - cfg.window)
  }

  /**
    Sliding peak: after any run, an evaluation of a breaker that is not latched trips exactly if the
    true maximum of the window over everything seen since the last reset has been lost by more
    than the threshold; for thresholds up to 1 or equity not negative, exactly if some positive
    equity of that window has.
   */
  lemma {:induction false} SlidingPeak(
      cfg: DrawdownConfig, start: Time, events: seq<DrawdownEvent>, now: Time, equity: real)
    requires EvaluationsOrdered(start, events) && LastEvaluation(start, events) <= now
    requires !Watch(cfg, start, events).state.latched
    ensures var w := Watch(cfg, start, events);
            var inWindow := WindowOf(cfg, w, now, equity);
            var after := EvaluateDrawdown(cfg, w.state, now, equity);
            && |inWindow| > 0 && after.history == inWindow
            && (after.latched <==> Drop(Peak(inWindow), equity, cfg.threshold))
            && (cfg.threshold <= 1.0 || equity >= 0.0 ==>
                  (after.latched <==> SomeDrop(inWindow, equity, cfg.threshold)))
  {
    hide Since, Recorded, PeakTrips, Peak, Drop;
    WatchIsPruned(cfg, start, events);
    var w := Watch(cfg, start, events);
    PruneThenRecord(cfg, w.seen, w.last, now, equity);
    var inWindow := Since(w.seen + [Observation(now, equity)], SeenAt, now - cfg.window);
    PeakTripsIsDrop(inWindow, equity, cfg.threshold);
    if cfg.threshold <= 1.0 || equity >= 0.0 {
      PeakFindsDrop(inWindow, equity, cfg.threshold);
    }
  }

  /** After this run, an evaluation of the unlatched breaker trips exactly if the window holds a drop. */
  ghost predicate CatchesDrops(cfg: DrawdownConfig, start: Time, events: seq<DrawdownEvent>, now: Time, equity: real) {
    var w := Watch(cfg, start, events);
    EvaluationsOrdered(start, events) && LastEvaluation(start, events) <= now && !w.state.latched ==>
      (EvaluateDrawdown(cfg, w.state, now, equity).latched
       <==> SomeDrop(WindowOf(cfg, w, now, equity), equity, cfg.threshold))
  }

  /**
    Looking at the peak alone finds a drop from any earlier equity, after every run that leaves the
    breaker unlatched, exactly for thresholds up to 1 or equities that are not negative.  Otherwise
    two evaluations suffice to hide one.
   */
  lemma {:induction false} PeakIsEnoughIff(cfg: DrawdownConfig, equity: real)
    ensures (forall start, events, now :: CatchesDrops(cfg, start, events, now, equity))
            <==> cfg.threshold <= 1.0 || equity >= 0.0
  {
    hide Watch, Since;
    if cfg.threshold <= 1.0 || equity >= 0.0 {
      forall start, events, now
        ensures CatchesDrops(cfg, start, events, now, equity)
      {
        var w := Watch(cfg, start, events);
        if EvaluationsOrdered(start, events) && LastEvaluation(start, events) <= now && !w.state.latched {
          SlidingPeak(cfg, start, events, now, equity);
        }
      }
    } else {
      var t := cfg.threshold - 1.0;
      var low, high := -equity / (2.0 * t), -equity / t;
      LowAndHigh(equity, cfg.threshold, low, high);
      HiddenDrop(cfg, low, high, equity);
    }
  }

  /** The drop from `low` is not noticed, because the peak `high` has not dropped far enough. */
  lemma {:induction false} HiddenDrop(cfg: DrawdownConfig, low: real, high: real, equity: real)
    requires cfg.threshold > 1.0 && 0.0 < low < high
    requires Drop(low, equity, cfg.threshold) && !Drop(high, equity, cfg.threshold) && equity < 0.0
    ensures !CatchesDrops(cfg, 0, [Evaluated(0, low), Evaluated(0, high)], 0, equity)
  {
    hide Since, EvaluateDrawdown, Peak, WindowOf, SomeDrop;
    var events := [Evaluated(0, low), Evaluated(0, high)];
    assert events[..1] == [Evaluated(0, low)] && events[..1][..0] == [];
    var none := Watch(cfg, 0, []);
    var one := Watch(cfg, 0, events[..1]);
    NoDropIn(cfg, none, [low], low);
    SlidingPeak(cfg, 0, [], 0, low);
    assert one.seen == [Observation(0, low)];
    NoDropIn(cfg, one, [low, high], high);
    SlidingPeak(cfg, 0, events[..1], 0, high);
    var two := Watch(cfg, 0, events);
    assert two.seen == [Observation(0, low), Observation(0, high)];
    SlidingPeak(cfg, 0, events, 0, equity);
    WindowOfThree(cfg, two, low, high, equity);
  }

  lemma WindowOfThree(cfg: DrawdownConfig, w: Watched, low: real, high: real, equity: real)
    requires w.seen == [Observation(0, low), Observation(0, high)] && equity < low < high
    requires Drop(low, equity, cfg.threshold)
    ensures var window := WindowOf(cfg, w, 0, equity);
            |window| > 0 && Peak(window) == high && SomeDrop(window, equity, cfg.threshold)
  {
    hide Since, Peak, Drop;
    var window := WindowOf(cfg, w, 0, equity);
    forall o
      ensures o in window <==> o in [Observation(0, low), Observation(0, high), Observation(0, equity)]
    {
      SinceMembers(w.seen + [Observation(0, equity)], SeenAt, 0 - cfg.window, o);
    }
    assert Observation(0, low) in window && Observation(0, high) in window;
    var i :| 0 <= i < |window| && window[i] == Observation(0, low);
    PeakAmong(window, high);
  }

  /** Observing nothing above `equity` is no drop. */
  lemma NoDropIn(cfg: DrawdownConfig, w: Watched, equities: seq<real>, equity: real)
    requires cfg.threshold > 1.0 && equity > 0.0
    requires forall i :: 0 <= i < |w.seen| ==> w.seen[i].equity in equities
    requires equity in equities && forall e :: e in equities ==> 0.0 < e <= equity
    ensures !SomeDrop(WindowOf(cfg, w, 0, equity), equity, cfg.threshold)
  {
    hide Since;
    var window := WindowOf(cfg, w, 0, equity);
    forall i | 0 <= i < |window|
      ensures !Drop(window[i].equity, equity, cfg.threshold)
    {
      SinceMembers(w.seen + [Observation(0, equity)], SeenAt, 0 - cfg.window, window[i]);
      assert window[i].equity in equities;
      assert cfg.threshold * window[i].equity > 0.0;
    }
  }

  lemma PeakAmong(history: seq<Observation>, top: real)
    requires |history| > 0 && Observation(0, top) in history
    requires forall o :: o in history ==> o.equity <= top
    ensures Peak(history) == top
  {
    var i :| 0 <= i < |history| && history[i].equity == Peak(history);
    assert history[i] in history;
    var j :| 0 <= j < |history| && history[j] == Observation(0, top);
  }

  // ----- Errors in a window

  function Itself(t: Time): Time {
    t
  }

  datatype WindowConfig = WindowConfig(threshold: AtLeastOne, window: nat)

  /** `ConsecutiveErrorBreaker.evaluate`: prune; it trips if enough errors are left. */
  function PruneErrors(cfg: WindowConfig, errors: seq<Time>, now: Time): seq<Time> {
    Since(errors, Itself, now - cfg.window)
  }

  datatype ErrorEvent = ErrorSeen(at: Time) | ErrorsEvaluated(now: Time)

  /** What the breaker holds against everything it ever accepted, and when it last pruned. */
  datatype Counted = Counted(held: seq<Time>, accepted: seq<Time>, last: Time)

  function CountStep(cfg: WindowConfig, c: Counted, e: ErrorEvent): Counted {
    match e
    case ErrorSeen(at) => c.(held := c.held + [at], accepted := c.accepted + [at])
    case ErrorsEvaluated(now) => c.(held := PruneErrors(cfg, c.held, now), last := now)
  }

  function Count(cfg: WindowConfig, start: Time, events: seq<ErrorEvent>): Counted {
    if |events| == 0 then Counted([], [], start)
    else CountStep(cfg, Count(cfg, start, events[..|events| - 1]), events[|events| - 1])
  }

  function LastPrune(start: Time, events: seq<ErrorEvent>): Time {
    if |events| == 0 then start
    else if events[|events| - 1].ErrorsEvaluated? then events[|events| - 1].now
    else LastPrune(start, events[..|events| - 1])
  }

  /** Evaluation times begin no earlier than `start` and do not go backwards. */
  predicate PrunesOrdered(start: Time, events: seq<ErrorEvent>) {
    |events| == 0
    || (var before, e := events[..|events| - 1], events[|events| - 1];
        PrunesOrdered(start, before) && (e.ErrorsEvaluated? ==> LastPrune(start, before) <= e.now))
  }

  /** Pruning is invisible to every cutoff from the last evaluation's on. */
  ghost predicate PruningInvisible(held: seq<Time>, accepted: seq<Time>, from: Time) {
    forall cutoff :: from <= cutoff ==> Since(held, Itself, cutoff) == Since(accepted, Itself, cutoff)
  }

  lemma {:induction false} CountIsInvisible(cfg: WindowConfig, start: Time, events: seq<ErrorEvent>)
    requires PrunesOrdered(start, events)
    ensures var c := Count(cfg, start, events);
            PruningInvisible(c.held, c.accepted, c.last - cfg.window) && c.last == LastPrune(start, events)
  {
    hide Since, PruningInvisible;
    if |events| == 0 {
      EqualsInvisible([], start - cfg.window);
    } else {
      var before, e := events[..|events| - 1], events[|events| - 1];
      CountIsInvisible(cfg, start, before);
      var c := Count(cfg, start, before);
      match e
      case ErrorSeen(at) => SeenKeepsInvisible(c.held, c.accepted, c.last - cfg.window, at);
      case ErrorsEvaluated(now) => PruneKeepsInvisible(c.held, c.accepted, c.last - cfg.window, now - cfg.window);
    }
  }

  lemma EqualsInvisible(errors: seq<Time>, from: Time)
    ensures PruningInvisible(errors, errors, from)
  {
  }

  lemma {:induction false} SeenKeepsInvisible(held: seq<Time>, accepted: seq<Time>, from: Time, at: Time)
    requires PruningInvisible(held, accepted, from)
    ensures PruningInvisible(held + [at], accepted + [at], from)
  {
    forall cutoff | from <= cutoff
      ensures Since(held + [at], Itself, cutoff) == Since(accepted + [at], Itself, cutoff)
    {
      SinceAppend(held, at, Itself, cutoff);
      SinceAppend(accepted, at, Itself, cutoff);
    }
  }

  lemma {:induction false} PruneKeepsInvisible(held: seq<Time>, accepted: seq<Time>, from: Time, later: Time)
    requires PruningInvisible(held, accepted, from) && from <= later
    ensures PruningInvisible(Since(held, Itself, later), accepted, later)
  {
    forall cutoff | later <= cutoff
      ensures Since(Since(held, Itself, later), Itself, cutoff) == Since(accepted, Itself, cutoff)
    {
      PruneAgain(held, Itself, later, cutoff);
    }
  }

  /** The places of the stamps at or after `cutoff`. */
  function Recent(stamps: seq<Time>, cutoff: Time): set<int> {
    set i | 0 <= i < |stamps| && stamps[i] >= cutoff
  }

  lemma RecentNext(stamps: seq<Time>, cutoff: Time)
    requires |stamps| > 0
    ensures var last, before := |stamps| - 1, Recent(stamps[..|stamps| - 1], cutoff);
            last !in before && Recent(stamps, cutoff) == if stamps[last] >= cutoff then before + {last} else before
  {
  }

  lemma {:induction false} RecentCounts(stamps: seq<Time>, cutoff: Time)
    ensures |Since(stamps, Itself, cutoff)| == |Recent(stamps, cutoff)|
  {
    if |stamps| == 0 {
      assert Recent(stamps, cutoff) == {};
    } else {
      hide Recent;
      RecentCounts(stamps[..|stamps| - 1], cutoff);
      RecentNext(stamps, cutoff);
    }
  }

  /**
    Pruning loses nothing: errors may come with any timestamps in any order; after any run an
    evaluation is left with as many errors as were ever accepted with a stamp in the window.
   */
  lemma {:induction false} NoErrorLost(cfg: WindowConfig, start: Time, events: seq<ErrorEvent>, now: Time)
    requires PrunesOrdered(start, events) && LastPrune(start, events) <= now
    ensures var c := Count(cfg, start, events);
            && PruneErrors(cfg, c.held, now) == Since(c.accepted, Itself, now - cfg.window)
            && |PruneErrors(cfg, c.held, now)| == |Recent(c.accepted, now - cfg.window)|
  {
    hide Since, Count;
    CountIsInvisible(cfg, start, events);
    RecentCounts(Count(cfg, start, events).accepted, now - cfg.window);
  }

  // ----- Rate limit with cooldown

  datatype RateConfig = RateConfig(threshold: AtLeastOne, window: nat, cooldown: nat)

  datatype RateState = RateState(errors: seq<Time>, trippedUntil: Option<Time>)

  const RATE_START := RateState([], None)

  predicate Cooling(s: RateState, now: Time) {
    s.trippedUntil.Some? && now < s.trippedUntil.value
  }

  /** `RateLimitBreaker.evaluate`: the new state; it trips exactly if that state is cooling or has just tripped. */
  function EvaluateRate(cfg: RateConfig, s: RateState, now: Time): RateState {
    if Cooling(s, now) then s
    else
      var errors := if s.trippedUntil.Some? then [] else s.errors;
      var kept := Since(errors, Itself, now - cfg.window);
      RateState(kept, if |kept| >= cfg.threshold then Some(now + cfg.cooldown) else None)
  }

  /** Evaluation trips: still cooling, or enough errors in the window. */
  predicate RateTrips(cfg: RateConfig, s: RateState, now: Time) {
    EvaluateRate(cfg, s, now).trippedUntil.Some?
  }

  function RateError(s: RateState, at: Time): RateState {
    s.(errors := s.errors + [at])
  }

  function RateStep(cfg: RateConfig, s: RateState, e: ErrorEvent): RateState {
    match e
    case ErrorSeen(at) => RateError(s, at)
    case ErrorsEvaluated(now) => EvaluateRate(cfg, s, now)
  }

  function RateRun(cfg: RateConfig, s: RateState, events: seq<ErrorEvent>): RateState {
    if |events| == 0 then s else RateStep(cfg, RateRun(cfg, s, events[..|events| - 1]), events[|events| - 1])
  }

  /** While the cooldown lasts every evaluation trips, and neither errors nor evaluations extend it. */
  lemma {:induction false} CooldownHolds(cfg: RateConfig, s: RateState, events: seq<ErrorEvent>, now: Time)
    requires s.trippedUntil.Some? && now < s.trippedUntil.value
    requires forall i :: 0 <= i < |events| && events[i].ErrorsEvaluated? ==> events[i].now < s.trippedUntil.value
    ensures var t := RateRun(cfg, s, events);
            && t.trippedUntil == s.trippedUntil
            && RateTrips(cfg, t, now) && EvaluateRate(cfg, t, now) == t
  {
    if |events| > 0 {
      CooldownHolds(cfg, s, events[..|events| - 1], now);
      var last := events[|events| - 1];
      if last.ErrorsEvaluated? {
        CooldownHolds(cfg, s, events[..|events| - 1], last.now);
      }
    }
  }

  /** The first evaluation at or after the end of the cooldown does not trip and forgets every error. */
  lemma {:induction false} CooldownEnds(cfg: RateConfig, s: RateState, events: seq<ErrorEvent>, now: Time)
    requires s.trippedUntil.Some? && s.trippedUntil.value <= now
    requires forall i :: 0 <= i < |events| && events[i].ErrorsEvaluated? ==> events[i].now < s.trippedUntil.value
    ensures var t := RateRun(cfg, s, events);
            !RateTrips(cfg, t, now) && EvaluateRate(cfg, t, now) == RATE_START
  {
    if |events| > 0 {
      CooldownEnds(cfg, s, events[..|events| - 1], now);
      if events[|events| - 1].ErrorsEvaluated? {
        CooldownHolds(cfg, s, events[..|events| - 1], events[|events| - 1].now);
      }
      RateUntil(cfg, s, events);
    }
  }

  lemma {:induction false} RateUntil(cfg: RateConfig, s: RateState, events: seq<ErrorEvent>)
    requires s.trippedUntil.Some?
    requires forall i :: 0 <= i < |events| && events[i].ErrorsEvaluated? ==> events[i].now < s.trippedUntil.value
    ensures RateRun(cfg, s, events).trippedUntil == s.trippedUntil
  {
    if |events| > 0 {
      RateUntil(cfg, s, events[..|events| - 1]);
    }
  }

  /** The breaker with every error received since it last forgot, and when it last evaluated. */
  datatype Limited = Limited(state: RateState, received: seq<Time>, last: Time)

  function LimitStep(cfg: RateConfig, l: Limited, e: ErrorEvent): Limited {
    match e
    case ErrorSeen(at) => l.(state := RateError(l.state, at), received := l.received + [at])
    case ErrorsEvaluated(now) =>
      Limited(EvaluateRate(cfg, l.state, now),
              if l.state.trippedUntil.Some? && !Cooling(l.state, now) then [] else l.received,
              now)
  }

  function Limit(cfg: RateConfig, start: Time, events: seq<ErrorEvent>): Limited {
    if |events| == 0 then Limited(RATE_START, [], start)
    else LimitStep(cfg, Limit(cfg, start, events[..|events| - 1]), events[|events| - 1])
  }

  lemma {:induction false} LimitIsInvisible(cfg: RateConfig, start: Time, events: seq<ErrorEvent>)
    requires PrunesOrdered(start, events)
    ensures var l := Limit(cfg, start, events);
            PruningInvisible(l.state.errors, l.received, l.last - cfg.window) && l.last == LastPrune(start, events)
  {
    if |events| > 0 {
      var before, e := events[..|events| - 1], events[|events| - 1];
      LimitIsInvisible(cfg, start, before);
      var l := Limit(cfg, start, before);
      match e
      case ErrorSeen(at) => SeenKeepsInvisible(l.state.errors, l.received, l.last - cfg.window, at);
      case ErrorsEvaluated(now) => EvaluationKeepsInvisible(cfg, l, now);
    }
  }

  lemma EvaluationKeepsInvisible(cfg: RateConfig, l: Limited, now: Time)
    requires PruningInvisible(l.state.errors, l.received, l.last - cfg.window) && l.last <= now
    ensures var m := LimitStep(cfg, l, ErrorsEvaluated(now));
            PruningInvisible(m.state.errors, m.received, now - cfg.window)
  {
    hide Since;
    if l.state.trippedUntil.None? {
      PruneKeepsInvisible(l.state.errors, l.received, l.last - cfg.window, now - cfg.window);
    } else if !Cooling(l.state, now) {
      NothingSince(Itself, now - cfg.window);
    }
  }

  /**
    Outside a cooldown, after any run, an evaluation trips exactly if the errors received since
    the breaker last forgot include `threshold` in the window, and the cooldown starts there.
   */
  lemma {:induction false} RateCountsAll(cfg: RateConfig, start: Time, events: seq<ErrorEvent>, now: Time)
    requires PrunesOrdered(start, events) && LastPrune(start, events) <= now
    requires Limit(cfg, start, events).state.trippedUntil.None?
    ensures var l := Limit(cfg, start, events);
            var inWindow := Since(l.received, Itself, now - cfg.window);
            && EvaluateRate(cfg, l.state, now)
               == RateState(inWindow, if |inWindow| >= cfg.threshold then Some(now + cfg.cooldown) else None)
            && |inWindow| == |Recent(l.received, now - cfg.window)|
  {
    hide Since, Limit, PrunesOrdered, LastPrune;
    LimitIsInvisible(cfg, start, events);
    RecentCounts(Limit(cfg, start, events).received, now - cfg.window);
  }
}
