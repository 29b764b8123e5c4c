/**
  What the order manager and its journal know about the venue's orders, over whole runs.
 */
module OrderTracking {
  import opened Domain
  import opened FillEngines
  import opened Venue
  import opened Journal
  import opened Desk

  // ----- Submitting

  /** The rows placing an order writes: acknowledged or rejected, and for a fill its two versions. */
  function PlacedRows(accepted: Order, placed: Order, trades: bool): seq<Order> {
    if trades then [accepted, placed, placed] else [placed]
  }

  /**
    What placing an order does: the order is new, cached as the venue has it, stamped with the
    reading of its last change, and journaled in that many rows; no other order is touched.
   */
  lemma {:induction false} PlacedOrder(env: Env, d: DeskState, req: OrderRequest)
    requires Good(d) && env.engine.Sane() && req.quantity > 0.0 && PositivePrice(req.price)
    ensures var e, oid, trades := PlaceOrder(env, d, req), d.venue.nextOid + 1, TradesAtOnce(d.venue, req);
            var accepted := NewOrder(d.venue, req, env.clock(d.ticks));
            && e.venue.nextOid == oid && oid in e.venue.all && oid in e.orders && e.orders[oid] == e.venue.all[oid]
            && e.rows == d.rows + PlacedRows(accepted, e.venue.all[oid], trades)
            && (if trades then e.venue.all[oid].filled > 0.0 else e.venue.all[oid] == accepted)
            && e.venue.all[oid].updatedAt == env.clock(d.ticks + (if trades then 1 else 0))
            && (forall k :: k != oid ==> AgreeOn(e.venue.all, d.venue.all, k) && AgreeOn(e.venue.open, d.venue.open, k))
  {
    hide NewAverage, WouldCross, Consistent, Explained, Attempt, TradesAtOnce, Mirrors;
    var accepted, oid := Accepted(env, d, req), d.venue.nextOid + 1;
    NewId(d);
    AcceptedKeeps(env, d, req);
    if InitialStatus(d.venue, req) == Acked && req.symbol in d.venue.books {
      var book := d.venue.books[req.symbol];
      TradesAtOnceIff(d.venue, env.engine, req, env.clock(d.ticks), env.clock(d.ticks + 1));
      KnownBook(d, req.symbol);
      OfferedFill(env, accepted, oid, book, env.clock(d.ticks + 1));
      var fill := Attempt(accepted.venue, env.engine, oid, book, env.clock(d.ticks + 1));
      if fill.Some? {
        var o := Updated(accepted.venue.open[oid], fill.value);
        var order := NewOrder(d.venue, req, env.clock(d.ticks));
        assert d.rows + [order] + [o] + [o] == d.rows + [order, o, o];
      }
    } else {
      NotAtOnce(d.venue, req);
    }
  }

  lemma NewId(d: DeskState)
    requires Good(d)
    ensures d.venue.nextOid + 1 !in d.venue.all && d.venue.nextOid + 1 !in d.venue.open
    ensures forall i :: 0 <= i < |d.rows| ==> d.rows[i].orderId != d.venue.nextOid + 1
  {
  }

  lemma NotAtOnce(v: VenueState, req: OrderRequest)
    requires InitialStatus(v, req) != Acked || req.symbol !in v.books
    ensures !TradesAtOnce(v, req)
  {
  }

  lemma AtOnceIsAcked(v: VenueState, req: OrderRequest)
    requires TradesAtOnce(v, req)
    ensures InitialStatus(v, req) == Acked
  {
  }

  /** The rows one submit writes: those of the placed order, and the SUBMITTED row last. */
  lemma {:induction false} SubmittedOrder(env: Env, d: DeskState, intent: TradeIntent, cid: string)
    requires Good(d) && env.engine.Sane() && intent.quantity > 0.0 && PositivePrice(intent.price)
    ensures var e, oid := Submit(env, d, intent, cid), d.venue.nextOid + 1;
            var placed := PlaceOrder(env, d.(ticks := d.ticks + 1), RequestOf(intent, cid));
            && e == placed.(rows := placed.rows + [SubmittedRow(oid, intent, cid, env.clock(d.ticks))])
  {
    hide PlaceOrder, Good, TradesAtOnce;
    Ticked(d);
    PlacedOrder(env, d.(ticks := d.ticks + 1), RequestOf(intent, cid));
  }

  lemma Ticked(d: DeskState)
    requires Good(d)
    ensures Good(d.(ticks := d.ticks + 1))
  {
  }

  lemma {:induction false} SubmitKeeps(env: Env, d: DeskState, intent: TradeIntent, cid: string)
    requires Good(d) && env.engine.Sane() && intent.quantity > 0.0 && PositivePrice(intent.price)
    ensures Good(Submit(env, d, intent, cid)) && Follows(d, Submit(env, d, intent, cid))
  {
    hide PlaceOrder, Consistent, Explained, TradesAtOnce;
    var d', req := d.(ticks := d.ticks + 1), RequestOf(intent, cid);
    Ticked(d);
    PlaceOrderKeeps(env, d', req);
    PlacedOrder(env, d', req);
    SubmittedOrder(env, d, intent, cid);
  }

  lemma {:induction false} SubmitRows(env: Env, d: DeskState, intent: TradeIntent, cid: string, strict: bool)
    requires Monotone(env.clock, strict) && Sound(env, d, strict) && env.engine.Sane()
    requires intent.quantity > 0.0 && PositivePrice(intent.price)
    ensures Sound(env, Submit(env, d, intent, cid), strict)
  {
    hide PlaceOrder, Good, RowsOk, RowsPast, Submit, LatestIndex, LastIndex;
    var d', req := d.(ticks := d.ticks + 1), RequestOf(intent, cid);
    Ticked(d);
    SameRows(d, d', strict);
    RowsLater(d, env.clock(d.ticks), env.clock(d'.ticks));
    PastAtAnyTick(d, d', env.clock(d'.ticks));
    PlaceOrderRows(env, d', req, strict);
    PlacedLast(env, d', req);
    SubmittedOrder(env, d, intent, cid);
    SubmitKeeps(env, d, intent, cid);
    var placed := PlaceOrder(env, d', req);
    AuditRow(placed, SubmittedRow(placed.venue.nextOid, intent, cid, env.clock(d.ticks)), Submit(env, d, intent, cid),
             env.clock(placed.ticks), strict);
  }

  lemma PlacedLast(env: Env, d: DeskState, req: OrderRequest)
    requires Good(d) && env.engine.Sane() && req.quantity > 0.0 && PositivePrice(req.price)
    ensures var e, oid := PlaceOrder(env, d, req), d.venue.nextOid + 1;
            && e.venue.nextOid == oid && oid in e.venue.all && e.ticks > d.ticks
            && LastIndex(e.rows, oid) >= 0 && e.rows[LastIndex(e.rows, oid)] == e.venue.all[oid]
            && (e.venue.all[oid].updatedAt == env.clock(d.ticks)
                 || e.venue.all[oid].updatedAt == env.clock(d.ticks + 1))
  {
    hide Good, PlaceOrder, LastIndex, LatestIndex, TradesAtOnce;
    PlacedOrder(env, d, req);
    PlaceOrderKeeps(env, d, req);
    PlacedTicks(env, d, req);
    var e := PlaceOrder(env, d, req);
    VersionIsVenues(e, e.venue.nextOid);
    var o := e.venue.all[e.venue.nextOid];
    assert e.rows == e.rows[..|e.rows| - 1] + [o];
    AppendOwn(e.rows[..|e.rows| - 1], o);
  }

  lemma PlacedTicks(env: Env, d: DeskState, req: OrderRequest)
    ensures PlaceOrder(env, d, req).ticks > d.ticks
  {
    hide Attempt, Updated, WouldCross, NewOrder;
  }

  /** The SUBMITTED row goes last; it is the latest only if it ties with the venue's version. */
  lemma {:induction false} AuditRow(d: DeskState, row: Order, e: DeskState, now: Time, strict: bool)
    requires Good(d) && RowsOk(d, strict) && RowsPast(d, now) && row.updatedAt <= now
    requires row.orderId in d.venue.all && row.status == Submitted
    requires row.updatedAt <= d.venue.all[row.orderId].updatedAt
    requires strict ==> row.updatedAt < d.venue.all[row.orderId].updatedAt
    requires var last := LastIndex(d.rows, row.orderId);
             last >= 0 && d.rows[last] == d.venue.all[row.orderId]
    requires e.venue == d.venue && e.rows == d.rows + [row]
    ensures RowsOk(e, strict) && RowsPast(e, now)
  {
    hide LatestIndex, LastIndex, Exposure, Explained;
    AppendOwn(d.rows, row);
    assert OrderOk(d.venue.all[row.orderId]);
    forall k | k in e.venue.all
      ensures RowOk(e.rows, k, e.venue.all[k], strict)
    {
      assert RowOk(d.rows, k, d.venue.all[k], strict);
      if k != row.orderId {
        AppendOther(d.rows, row, k);
      }
    }
  }

  // ----- Runs

  /** On any clock, every input keeps the desk good; every input but a restart keeps the cache in step. */
  lemma {:induction false} NextKeeps(env: Env, d: DeskState, i: Input)
    requires Good(d) && env.engine.Sane() && InputOk(i)
    ensures Good(Next(env, d, i))
    ensures !i.RestartIn? ==> Follows(d, Next(env, d, i))
  {
    hide Submit, CancelOne, CancelEach, OnOrderbook, Consistent, Explained, ReadLatest;
    match i
    case SubmitIn(intent, cid) => SubmitKeeps(env, d, intent, cid);
    case CancelIn(oid) => CancelOneKeeps(env, d, oid);
    case CancelAllIn(symbol) => CancelEachKeeps(env, d, IdsOn(Working(d.orders), symbol));
    case BookIn(book) => OnOrderbookKeeps(env, d, book);
    case ClockIn =>
    case RestartIn => ReadIds(d.rows);
  }

  lemma ReadIds(rows: seq<Order>)
    ensures forall k :: k in ReadLatest(rows) ==> ReadLatest(rows)[k].orderId == k
  {
    hide LatestIndex;
  }

  lemma {:induction false} NextRows(env: Env, d: DeskState, i: Input, strict: bool)
    requires Monotone(env.clock, strict) && Sound(env, d, strict) && env.engine.Sane() && InputOk(i)
    ensures Sound(env, Next(env, d, i), strict)
  {
    hide Submit, CancelOne, CancelEach, OnOrderbook, Good, RowsOk;
    match i
    case SubmitIn(intent, cid) => SubmitRows(env, d, intent, cid, strict);
    case CancelIn(oid) => CancelOneRows(env, d, oid, strict);
    case CancelAllIn(symbol) => CancelEachRows(env, d, IdsOn(Working(d.orders), symbol), strict);
    case BookIn(book) => OnOrderbookRows(env, d, book, strict);
    case ClockIn =>
      Ticked(d);
      SameRows(d, Next(env, d, i), strict);
      RowsLater(d, env.clock(d.ticks), env.clock(d.ticks + 1));
    case RestartIn =>
      NextKeeps(env, d, i);
      SameRows(d, Next(env, d, i), strict);
  }

  lemma FreshIsSound(env: Env, strict: bool)
    ensures Sound(env, FRESH_DESK, strict) && Mirrors(FRESH_DESK) && FRESH_DESK.orders == FRESH_DESK.venue.all
  {
    EmptyIsSafe();
  }

  lemma {:induction false} RunKeeps(env: Env, d: DeskState, inputs: seq<Input>)
    requires Good(d) && env.engine.Sane()
    requires forall i :: 0 <= i < |inputs| ==> InputOk(inputs[i])
    ensures Good(Run(env, d, inputs))
    ensures (forall i :: 0 <= i < |inputs| ==> !inputs[i].RestartIn?) ==> Follows(d, Run(env, d, inputs))
  {
    hide Good, Next, Mirrors;
    if |inputs| > 0 {
      var before, last := Run(env, d, inputs[..|inputs| - 1]), inputs[|inputs| - 1];
      RunKeeps(env, d, inputs[..|inputs| - 1]);
      NextKeeps(env, before, last);
    }
  }

  lemma {:induction false} RunRows(env: Env, d: DeskState, inputs: seq<Input>, strict: bool)
    requires Monotone(env.clock, strict) && Sound(env, d, strict) && env.engine.Sane()
    requires forall i :: 0 <= i < |inputs| ==> InputOk(inputs[i])
    ensures Sound(env, Run(env, d, inputs), strict)
  {
    hide Sound, Next;
    if |inputs| > 0 {
      RunRows(env, d, inputs[..|inputs| - 1], strict);
      NextRows(env, Run(env, d, inputs[..|inputs| - 1]), inputs[|inputs| - 1], strict);
    }
  }

  /**
    The order manager refines the venue: after any run without a restart, on any clock, its cache is
    the venue's dictionary, field for field.
   */
  lemma {:induction false} CacheIsVenue(env: Env, inputs: seq<Input>)
    requires env.engine.Sane()
    requires forall i :: 0 <= i < |inputs| ==> InputOk(inputs[i]) && !inputs[i].RestartIn?
    ensures var d := Run(env, FRESH_DESK, inputs);
            d.orders == d.venue.all
  {
    hide Run;
    FreshIsSound(env, false);
    RunKeeps(env, FRESH_DESK, inputs);
  }

  /** On any clock, restarts or not, the journaled fills add up to what every order shows as filled. */
  lemma {:induction false} FillsAddUp(env: Env, inputs: seq<Input>)
    requires env.engine.Sane()
    requires forall i :: 0 <= i < |inputs| ==> InputOk(inputs[i])
    ensures var d := Run(env, FRESH_DESK, inputs);
            Consistent(d.venue) && forall k :: k in d.venue.all ==> d.venue.all[k].filled == Traded(d.fills, k)
  {
    hide Run;
    FreshIsSound(env, false);
    RunKeeps(env, FRESH_DESK, inputs);
    var d := Run(env, FRESH_DESK, inputs);
    assert forall k :: k in d.venue.all ==> OrderExplained(d.venue.all[k], d.fills);
  }

  /**
    Why the venue fires the fill first: with a cache that agrees with the venue, fill then update
    ends in the venue's version, while update then fill counts the fill's quantity twice.
   */
  lemma {:induction false} UpdateFirstOvercounts(d: DeskState, oid: OrderId, fill: Fill)
    requires oid in d.venue.open && oid in d.orders && d.orders[oid] == d.venue.open[oid]
    requires fill.orderId == oid && d.venue.open[oid].orderId == oid
    ensures var updated := Updated(d.venue.open[oid], fill);
            && OnOrderUpdate(OnFill(d, fill), updated).orders[oid] == updated
            && OnFill(OnOrderUpdate(d, updated), fill).orders[oid].filled == updated.filled + fill.quantity
  {
    hide NewAverage;
  }

  /** What the order manager hears: an order changed, or a fill and with it the order after the fill. */
  datatype Callback = OrderChanged(order: Order) | OrderFilled(fill: Fill, updated: Order)

  predicate CallbacksOk(heard: seq<Callback>) {
    forall i :: 0 <= i < |heard| && heard[i].OrderFilled? ==> heard[i].updated.orderId == heard[i].fill.orderId
  }

  /** As the venue fires them, the fill first; with `swapped`, the update first. */
  function Hear(d: DeskState, c: Callback, swapped: bool): DeskState {
    match c
    case OrderChanged(order) => OnOrderUpdate(d, order)
    case OrderFilled(fill, updated) =>
      if swapped then OnFill(OnOrderUpdate(d, updated), fill) else OnOrderUpdate(OnFill(d, fill), updated)
  }

  function HearAll(d: DeskState, heard: seq<Callback>, swapped: bool): DeskState {
    if |heard| == 0 then d else Hear(HearAll(d, heard[..|heard| - 1], swapped), heard[|heard| - 1], swapped)
  }

  /** Quantity of the fill that was the last thing heard of the order; 0 if it was not a fill. */
  function LastHeardFill(heard: seq<Callback>, oid: OrderId): real {
    if |heard| == 0 then 0.0
    else
      match heard[|heard| - 1]
      case OrderChanged(order) => if order.orderId == oid then 0.0 else LastHeardFill(heard[..|heard| - 1], oid)
      case OrderFilled(fill, _) => if fill.orderId == oid then fill.quantity
          else LastHeardFill(heard[..|heard| - 1], oid)
  }

  /**
    Over whole streams of callbacks: with update and fill swapped, every cached order shows as filled
    what it should plus exactly its last fill, until it is next heard of otherwise.
   */
  lemma {:induction false} SwappedRunOvercounts(d: DeskState, heard: seq<Callback>)
    requires CallbacksOk(heard)
    ensures var right, wrong := HearAll(d, heard, false).orders, HearAll(d, heard, true).orders;
            && right.Keys == wrong.Keys
            && forall k :: k in right ==> wrong[k].filled == right[k].filled + LastHeardFill(heard, k)
  {
    hide Updated, Hear;
    if |heard| > 0 {
      var before, c := heard[..|heard| - 1], heard[|heard| - 1];
      SwappedRunOvercounts(d, before);
      var right, wrong := HearAll(d, before, false), HearAll(d, before, true);
      HeardOnce(right, c);
      HeardOnce(wrong, c);
      assert HearAll(d, heard, false) == Hear(right, c, false) && HearAll(d, heard, true) == Hear(wrong, c, true);
      var touched := if c.OrderFilled? then c.fill.orderId else c.order.orderId;
      forall k | k != touched
        ensures LastHeardFill(heard, k) == LastHeardFill(before, k)
      {
      }
      assert LastHeardFill(heard, touched) == if c.OrderFilled? then c.fill.quantity else 0.0;
      var right', wrong' := HearAll(d, heard, false).orders, HearAll(d, heard, true).orders;
      assert right'.Keys == right.orders.Keys + {touched} && wrong'.Keys == wrong.orders.Keys + {touched};
    }
  }

  /** The cache after one callback, in either order. */
  lemma HeardOnce(d: DeskState, c: Callback)
    requires c.OrderFilled? ==> c.updated.orderId == c.fill.orderId
    ensures c.OrderChanged? ==> forall swapped :: Hear(d, c, swapped).orders == d.orders[c.order.orderId := c.order]
    ensures c.OrderFilled? ==>
              && Hear(d, c, false).orders == d.orders[c.fill.orderId := c.updated]
              && Hear(d, c, true).orders == d.orders[c.fill.orderId := Updated(c.updated, c.fill)]
              && Updated(c.updated, c.fill).filled == c.updated.filled + c.fill.quantity
  {
    hide Updated;
    if c.OrderFilled? {
      FillAdds(c.updated, c.fill);
    }
  }

  lemma FillAdds(order: Order, fill: Fill)
    ensures Updated(order, fill).filled == order.filled + fill.quantity && Updated(order, fill).orderId == order.orderId
  {
    hide NewAverage;
  }

  // ----- Reading the journal back

  /** Nothing newer than its SUBMITTED row was recorded for the order, and the two carry one time. */
  ghost predicate Tied(d: DeskState, oid: OrderId)
    requires oid in d.venue.all
  {
    var last := LastIndex(d.rows, oid);
    last >= 0 && d.rows[last].status == Submitted && d.rows[last].updatedAt == d.venue.all[oid].updatedAt
  }

  /** The SQL reader recovers exactly the venue's open orders unless some order is tied. */
  lemma {:induction false} RecoversUnlessTied(env: Env, d: DeskState)
    requires Sound(env, d, false)
    ensures ReadLatest(d.rows) == d.venue.open <==> forall k :: k in d.venue.all ==> !Tied(d, k)
  {
    hide LatestIndex, LastIndex, Ids, Good, RowOk;
    forall k | k in d.venue.all
      ensures Tied(d, k) ==> k in ReadLatest(d.rows) && ReadLatest(d.rows)[k].status == Submitted
      ensures !Tied(d, k) ==> AgreeOn(ReadLatest(d.rows), d.venue.open, k)
      ensures k in d.venue.open ==> d.venue.open[k].status != Submitted
    {
      RowReads(d, k);
    }
    OpenWithin(d);
    if forall k :: k in d.venue.all ==> !Tied(d, k) {
      forall k
        ensures AgreeOn(ReadLatest(d.rows), d.venue.open, k)
      {
        if k !in d.venue.all {
          NoRowsElsewhere(d, k);
        }
      }
      AgreeEverywhere(ReadLatest(d.rows), d.venue.open);
    }
  }

  lemma SameMap(a: map<OrderId, Order>, b: map<OrderId, Order>)
    requires forall k :: k in a ==> k in b && a[k] == b[k]
    requires forall k :: k in b ==> k in a
    ensures a == b
  {
    forall k | k in a
      ensures k in b && a[k] == b[k]
    {
    }
    forall k | k in b
      ensures k in a && a[k] == b[k]
    {
    }
  }

  lemma OpenWithin(d: DeskState)
    requires Good(d)
    ensures forall k :: k in d.venue.open ==> k in d.venue.all
  {
  }

  lemma RowReads(d: DeskState, oid: OrderId)
    requires Good(d) && RowsOk(d, false) && oid in d.venue.all
    ensures Tied(d, oid) ==> oid in ReadLatest(d.rows) && ReadLatest(d.rows)[oid].status == Submitted
    ensures !Tied(d, oid) ==> AgreeOn(ReadLatest(d.rows), d.venue.open, oid)
    ensures oid in d.venue.open ==> d.venue.open[oid].status != Submitted
  {
    hide LatestIndex, LastIndex, Ids, Exposure, Explained;
    assert RowOk(d.rows, oid, d.venue.all[oid], false);
    assert OrderOk(d.venue.all[oid]);
  }

  lemma NoRowsElsewhere(d: DeskState, oid: OrderId)
    requires Good(d) && oid !in d.venue.all
    ensures oid !in Ids(d.rows)
  {
    assert LatestIndex(d.rows, oid) < 0;
  }

  /** No order is read back as merely SUBMITTED: something whoever restarts can see in the journal. */
  predicate NoneSubmitted(rows: seq<Order>) {
    forall k :: k in ReadLatest(rows) ==> ReadLatest(rows)[k].status != Submitted
  }

  /** The same condition read off the journal alone. */
  lemma {:induction false} RecoversUnlessSubmitted(env: Env, d: DeskState)
    requires Sound(env, d, false)
    ensures ReadLatest(d.rows) == d.venue.open <==> NoneSubmitted(d.rows)
  {
    hide LatestIndex, LastIndex, Ids, Good, RowOk, Tied;
    RecoversUnlessTied(env, d);
    forall k | k in d.venue.all
      ensures Tied(d, k) ==> k in ReadLatest(d.rows) && ReadLatest(d.rows)[k].status == Submitted
      ensures k in d.venue.open ==> d.venue.open[k].status != Submitted
    {
      RowReads(d, k);
    }
    OpenWithin(d);
  }

  /**
    Restart: for every run on a clock that does not go backwards, restarts of the order manager
    included, the journal reads back the venue's open orders exactly when it reads back none as
    SUBMITTED, which is exactly when no order's last row is a SUBMITTED row with the same time as
    the venue's version.
   */
  lemma {:induction false} RestartRecoversIff(env: Env, inputs: seq<Input>)
    requires Monotone(env.clock, false) && env.engine.Sane()
    requires forall i :: 0 <= i < |inputs| ==> InputOk(inputs[i])
    ensures var d := Run(env, FRESH_DESK, inputs);
            && (ReadLatest(d.rows) == d.venue.open <==> NoneSubmitted(d.rows))
            && (ReadLatest(d.rows) == d.venue.open <==> forall k :: k in d.venue.all ==> !Tied(d, k))
  {
    hide Run, Sound, NoneSubmitted, Tied, ReadLatest;
    FreshIsSound(env, false);
    RunRows(env, FRESH_DESK, inputs, false);
    RecoversUnlessTied(env, Run(env, FRESH_DESK, inputs));
    RecoversUnlessSubmitted(env, Run(env, FRESH_DESK, inputs));
  }

  lemma {:induction false} StrictNeverTies(env: Env, d: DeskState)
    requires Sound(env, d, true)
    ensures Sound(env, d, false)
    ensures forall k :: k in d.venue.all ==> !Tied(d, k)
    ensures ReadLatest(d.rows) == d.venue.open
  {
    hide LatestIndex, LastIndex, Exposure, Explained;
    forall k | k in d.venue.all
      ensures !Tied(d, k) && RowOk(d.rows, k, d.venue.all[k], false)
    {
      assert RowOk(d.rows, k, d.venue.all[k], true);
      assert OrderOk(d.venue.all[k]);
    }
    RecoversUnlessTied(env, d);
  }

  /**
    On a clock whose readings all differ, every run, with the order manager restarted any number of
    times along the way, leaves a journal that recovers exactly the working orders, and a cache
    that holds every working order and agrees with the venue.
   */
  lemma {:induction false} RestartRecovers(env: Env, inputs: seq<Input>)
    requires Monotone(env.clock, true) && env.engine.Sane()
    requires forall i :: 0 <= i < |inputs| ==> InputOk(inputs[i])
    ensures var d := Run(env, FRESH_DESK, inputs);
            && ReadLatest(d.rows) == d.venue.open
            && Working(d.orders) == d.venue.open
            && Mirrors(d) && Sound(env, d, true)
  {
    hide Next, Good, RowsOk, RowsPast;
    FreshIsSound(env, true);
    RunRows(env, FRESH_DESK, inputs, true);
    var d := Run(env, FRESH_DESK, inputs);
    StrictNeverTies(env, d);
    if |inputs| > 0 {
      var before, i := Run(env, FRESH_DESK, inputs[..|inputs| - 1]), inputs[|inputs| - 1];
      RestartRecovers(env, inputs[..|inputs| - 1]);
      StrictNextMirrors(env, before, i);
    }
    GoodMirrors(d);
  }

  /** On a strict clock a restart, too, keeps the cache a mirror. */
  lemma {:induction false} StrictNextMirrors(env: Env, d: DeskState, i: Input)
    requires Monotone(env.clock, true) && Sound(env, d, true) && Mirrors(d) && env.engine.Sane() && InputOk(i)
    ensures Sound(env, Next(env, d, i), true) && Mirrors(Next(env, d, i))
  {
    hide Good, RowsOk, RowsPast, Submit, CancelOne, CancelEach, OnOrderbook;
    NextRows(env, d, i, true);
    NextKeeps(env, d, i);
    if i.RestartIn? {
      StrictNeverTies(env, d);
      RestartMirrorsIff(d);
    }
  }

  /** On any clock: the restored cache mirrors the venue exactly if the journal reads back the open orders. */
  lemma RestartMirrorsIff(d: DeskState)
    requires Good(d)
    ensures Mirrors(Restart(d)) <==> ReadLatest(d.rows) == d.venue.open
  {
    hide LatestIndex, Ids, Exposure, Explained;
    var read := ReadLatest(d.rows);
    if Mirrors(Restart(d)) {
      forall k
        ensures (k in read ==> k in d.venue.open && read[k] == d.venue.open[k]) && (k in d.venue.open ==> k in read)
      {
        assert k in read ==> !IsTerminal(read[k].status) && read[k] == d.venue.all[k];
      }
      SameMap(read, d.venue.open);
    }
  }

  lemma MirrorWorking(d: DeskState)
    requires Consistent(d.venue) && Mirrors(d)
    ensures Working(d.orders) == d.venue.open
  {
    hide Exposure;
    var working := Working(d.orders);
    forall k
      ensures (k in working <==> k in d.venue.open) && (k in working ==> working[k] == d.venue.open[k])
    {
    }
  }

  /** The readings that make the venue's version of a new order its latest row, submission included. */
  predicate VersionIsLatest(clock: nat -> Time, submitted: nat, trades: bool) {
    if trades then clock(submitted) < clock(submitted + 2) && clock(submitted + 1) <= clock(submitted + 2)
    else clock(submitted) < clock(submitted + 1)
  }

  /** Among the first rows of an order that traded: which is the latest, by the times alone. */
  lemma LatestOfFour(rows: seq<Order>, accepted: Order, o: Order, row: Order)
    requires accepted.orderId == o.orderId == row.orderId && LatestIndex(rows, o.orderId) < 0
    requires accepted.status == Acked && row.status == Submitted && o.status != Acked && o.status != Submitted
    ensures var all := rows + [accepted] + [o] + [o] + [row];
            && LatestIndex(all, o.orderId) >= 0 && LastIndex(all, o.orderId) == |rows| + 3
            && var latest := all[LatestIndex(all, o.orderId)];
            && (latest == o || latest == row || latest == accepted)
            && (latest == o <==> row.updatedAt < o.updatedAt && accepted.updatedAt <= o.updatedAt)
            && (latest == row <==> accepted.updatedAt <= row.updatedAt && o.updatedAt <= row.updatedAt)
  {
    hide LatestIndex, LastIndex;
    AppendOwn(rows, accepted);
    AppendOwn(rows + [accepted], o);
    AppendOwn(rows + [accepted] + [o], o);
    AppendOwn(rows + [accepted] + [o] + [o], row);
  }

  lemma LatestOfTwo(rows: seq<Order>, o: Order, row: Order)
    requires o.orderId == row.orderId && LatestIndex(rows, o.orderId) < 0
    requires row.status == Submitted && o.status != Submitted
    ensures var all := rows + [o] + [row];
            && LatestIndex(all, o.orderId) >= 0 && LastIndex(all, o.orderId) == |rows| + 1
            && all[LatestIndex(all, o.orderId)] == (if row.updatedAt < o.updatedAt then o else row)
  {
    hide LatestIndex, LastIndex;
    AppendOwn(rows, o);
    AppendOwn(rows + [o], row);
  }

  /** The row of a new order the SQL reader ranks first, and the row written last. */
  lemma {:induction false} SubmittedReads(env: Env, d: DeskState, intent: TradeIntent, cid: string)
    requires Good(d) && env.engine.Sane() && intent.quantity > 0.0 && PositivePrice(intent.price)
    ensures var e, oid := Submit(env, d, intent, cid), d.venue.nextOid + 1;
            var trades := TradesAtOnce(d.venue, RequestOf(intent, cid));
            var latest, last := LatestIndex(e.rows, oid), LastIndex(e.rows, oid);
            && oid in e.venue.all && latest >= 0 && last >= 0
            && e.rows[last].status == Submitted
            && (e.rows[latest] == e.venue.all[oid] <==> VersionIsLatest(env.clock, d.ticks, trades))
            && (e.rows[latest] == e.rows[last]
                <==> && env.clock(d.ticks + 1) <= env.clock(d.ticks)
                     && (trades ==> env.clock(d.ticks + 2) <= env.clock(d.ticks)))
            && (e.rows[latest] != e.venue.all[oid] ==>
                  e.rows[latest].status == Submitted || e.rows[latest].status == Acked)
            && (e.rows[latest].status == Submitted ==> e.rows[latest] == e.rows[last])
  {
    hide Good, PlaceOrder, Submit, TradesAtOnce, LatestIndex, LastIndex, WouldCross, Mirrors, Ids;
    var d', req := d.(ticks := d.ticks + 1), RequestOf(intent, cid);
    Ticked(d);
    PlacedOrder(env, d', req);
    SubmittedOrder(env, d, intent, cid);
    SubmitKeeps(env, d, intent, cid);
    var e, oid := Submit(env, d, intent, cid), d.venue.nextOid + 1;
    NewId(d);
    NoRowsElsewhere(d, oid);
    VersionIsVenues(e, oid);
    var accepted, o := NewOrder(d.venue, req, env.clock(d.ticks + 1)), e.venue.all[oid];
    var row := SubmittedRow(oid, intent, cid, env.clock(d.ticks));
    if TradesAtOnce(d.venue, req) {
      AtOnceIsAcked(d.venue, req);
      LatestOfFour(d.rows, accepted, o, row);
      assert e.rows == d.rows + [accepted] + [o] + [o] + [row];
    } else {
      LatestOfTwo(d.rows, o, row);
      assert e.rows == d.rows + [o] + [row];
    }
  }

  /** The venue never has an order as SUBMITTED, and one with a fill no longer as ACKED. */
  lemma VersionIsVenues(d: DeskState, oid: OrderId)
    requires Good(d) && oid in d.venue.all
    ensures d.venue.all[oid].orderId == oid && d.venue.all[oid].status != Submitted
    ensures d.venue.all[oid].filled > 0.0 ==> d.venue.all[oid].status != Acked
    ensures oid in d.venue.open <==> !IsTerminal(d.venue.all[oid].status)
    ensures oid in d.venue.open ==> d.venue.open[oid] == d.venue.all[oid]
  {
    hide Exposure, Explained;
    assert OrderOk(d.venue.all[oid]);
  }

  /**
    One submit, from any desk whose journal recovers its working orders, on any clock: the journal
    still recovers them exactly if the readings taken make the venue's version the latest row.  If
    the clock does not go backwards, that is: exactly if it advances between the submission and the
    last change, which is the second reading after it if the order trades at once and the first if not.
   */
  lemma {:induction false} SubmitRecoversIff(env: Env, d: DeskState, intent: TradeIntent, cid: string)
    requires Good(d) && env.engine.Sane() && intent.quantity > 0.0 && PositivePrice(intent.price)
    requires ReadLatest(d.rows) == d.venue.open
    ensures var e, trades := Submit(env, d, intent, cid), TradesAtOnce(d.venue, RequestOf(intent, cid));
            && (ReadLatest(e.rows) == e.venue.open <==> VersionIsLatest(env.clock, d.ticks, trades))
            && (Monotone(env.clock, false) ==>
                  (ReadLatest(e.rows) == e.venue.open
                   <==> env.clock(d.ticks) < env.clock(d.ticks + (if trades then 2 else 1))))
  {
    hide Good, Submit, TradesAtOnce, LatestIndex, LastIndex, Ids;
    var e, oid := Submit(env, d, intent, cid), d.venue.nextOid + 1;
    SubmittedReads(env, d, intent, cid);
    SubmitKeeps(env, d, intent, cid);
    VersionIsVenues(e, oid);
    if VersionIsLatest(env.clock, d.ticks, TradesAtOnce(d.venue, RequestOf(intent, cid))) {
      forall k
        ensures AgreeOn(ReadLatest(e.rows), e.venue.open, k)
      {
        if k != oid {
          OthersStayRead(env, d, intent, cid, k);
        }
      }
      AgreeEverywhere(ReadLatest(e.rows), e.venue.open);
    }
  }

  lemma {:induction false} OthersStayRead(env: Env, d: DeskState, intent: TradeIntent, cid: string, oid: OrderId)
    requires Good(d) && env.engine.Sane() && intent.quantity > 0.0 && PositivePrice(intent.price)
    requires oid != d.venue.nextOid + 1
    ensures var e := Submit(env, d, intent, cid);
            && AgreeOn(ReadLatest(e.rows), ReadLatest(d.rows), oid)
            && AgreeOn(e.venue.open, d.venue.open, oid)
  {
    hide Good, PlaceOrder, Submit, TradesAtOnce, ReadLatest, ReadLast;
    var d', req := d.(ticks := d.ticks + 1), RequestOf(intent, cid);
    Ticked(d);
    PlacedOrder(env, d', req);
    SubmittedOrder(env, d, intent, cid);
    PlaceOrderKeeps(env, d', req);
    var placed := PlaceOrder(env, d', req);
    VersionIsVenues(placed, placed.venue.nextOid);
    var accepted, o := NewOrder(d.venue, req, env.clock(d.ticks + 1)), placed.venue.all[placed.venue.nextOid];
    var added := PlacedRows(accepted, o, TradesAtOnce(d.venue, req))
        + [SubmittedRow(o.orderId, intent, cid, env.clock(d.ticks))];
    assert Submit(env, d, intent, cid).rows == d.rows + added;
    ReadElsewhere(d.rows, added, oid);
  }

  function StandingStill(reading: nat): Time {
    0
  }

  /** A clock that stands still: a market order is filled at once, and the journal brings it back as SUBMITTED. */
  lemma {:induction false} StoppedClockRevivesOrder()
    ensures var env := Env(StandingStill, Immediate("USDT"));
            var book := Book("BTC", [], [Level(100.0, 5.0)], 1, 0);
            var intent := TradeIntent("BTC", Buy, Market, 1.0, None, Gtc, false);
            var d := Run(env, FRESH_DESK, [BookIn(book), SubmitIn(intent, "a")]);
            && 1 in d.venue.all && d.venue.all[1].status == Filled && d.venue.open == map[]
            && 1 in ReadLatest(d.rows) && ReadLatest(d.rows)[1].status == Submitted
  {
    hide Run, Submit, OnOrderbook, LatestIndex, LastIndex, Ids, TradesAtOnce, Good, StoreBook;
    var env := Env(StandingStill, Immediate("USDT"));
    var book := Book("BTC", [], [Level(100.0, 5.0)], 1, 0);
    var intent := TradeIntent("BTC", Buy, Market, 1.0, None, Gtc, false);
    RunTwo(env, FRESH_DESK, BookIn(book), SubmitIn(intent, "a"));
    FirstQuote(env, book);
    FreshIsSound(env, false);
    OnOrderbookKeeps(env, FRESH_DESK, book);
    var quoted := FRESH_DESK.(venue := StoreBook(EMPTY_VENUE, book));
    SubmittedReads(env, quoted, intent, "a");
    FilledOnSubmit(env, quoted, book, intent);
  }

  lemma RunTwo(env: Env, d: DeskState, first: Input, second: Input)
    ensures Run(env, d, [first, second]) == Next(env, Next(env, d, first), second)
  {
    hide Next;
    assert [first, second][..1] == [first] && [first][..0] == [];
    assert Run(env, d, [first]) == Next(env, d, first);
  }

  lemma FirstQuote(env: Env, book: Book)
    ensures OnOrderbook(env, FRESH_DESK, book) == FRESH_DESK.(venue := StoreBook(EMPTY_VENUE, book))
  {
    assert IdsOn(map[], Some(book.symbol)) == [];
  }

  lemma FilledOnSubmit(env: Env, d: DeskState, book: Book, intent: TradeIntent)
    requires env.engine.Immediate? && d == FRESH_DESK.(venue := StoreBook(EMPTY_VENUE, book))
    requires book.symbol == intent.symbol && intent.kind == Market && intent.side == Buy && intent.timeInForce == Gtc
    requires |book.asks| > 0 && intent.quantity > 0.0
    ensures var v := Submit(env, d, intent, "a").venue;
            v.all.Keys == {1} && v.all[1].status == Filled && v.open == map[]
  {
    hide NewAverage;
    var req, d' := RequestOf(intent, "a"), d.(ticks := 1);
    var accepted := Accepted(env, d', req);
    assert accepted.venue.open.Keys == {1} && accepted.venue.all.Keys == {1};
  }

  /** On any clock the in-memory reader has a fresh order as SUBMITTED, which the venue never does. */
  lemma {:induction false} LastWrittenMisses(env: Env, d: DeskState, intent: TradeIntent, cid: string)
    requires Good(d) && env.engine.Sane() && intent.quantity > 0.0 && PositivePrice(intent.price)
    ensures var e, oid := Submit(env, d, intent, cid), d.venue.nextOid + 1;
            && oid in ReadLast(e.rows) && ReadLast(e.rows)[oid].status == Submitted
            && ReadLast(e.rows) != e.venue.open
  {
    hide Good, Submit, TradesAtOnce, LatestIndex, LastIndex, Ids;
    SubmittedReads(env, d, intent, cid);
    SubmitKeeps(env, d, intent, cid);
    VersionIsVenues(Submit(env, d, intent, cid), d.venue.nextOid + 1);
  }

  /**
    After a submit the two readers differ on the new order exactly if some reading after the
    submission is later; if the clock does not go backwards, exactly if the SQL reader has the
    venue's version.  Then the rows are not written in time order.
   */
  lemma {:induction false} SubmitSplitsReaders(env: Env, d: DeskState, intent: TradeIntent, cid: string)
    requires Good(d) && env.engine.Sane() && intent.quantity > 0.0 && PositivePrice(intent.price)
    ensures var e, oid := Submit(env, d, intent, cid), d.venue.nextOid + 1;
            var trades := TradesAtOnce(d.venue, RequestOf(intent, cid));
            var split := !AgreeOn(ReadLatest(e.rows), ReadLast(e.rows), oid);
            && (split <==> env.clock(d.ticks) < env.clock(d.ticks + 1)
                           || (trades && env.clock(d.ticks) < env.clock(d.ticks + 2)))
            && (Monotone(env.clock, false) ==> (split <==> VersionIsLatest(env.clock, d.ticks, trades)))
            && (split ==> !WrittenInOrder(e.rows))
  {
    hide Good, Submit, TradesAtOnce, LatestIndex, LastIndex, Ids, WrittenInOrder;
    var e := Submit(env, d, intent, cid);
    SubmittedReads(env, d, intent, cid);
    if WrittenInOrder(e.rows) {
      JournalsAgree(e.rows);
    }
  }

  // ----- Recovery over whole runs

  predicate Recovers(d: DeskState) {
    ReadLatest(d.rows) == d.venue.open
  }

  /** Between `d` and `e` no order became tied with its SUBMITTED row. */
  ghost predicate NoNewTies(d: DeskState, e: DeskState) {
    forall k :: k in e.venue.all && Tied(e, k) ==> k in d.venue.all && Tied(d, k)
  }

  /** An order touched by the venue ends with a row that is not SUBMITTED. */
  lemma Untied(d: DeskState, e: DeskState, added: seq<Order>, o: Order)
    requires e.venue.all == d.venue.all[o.orderId := o] && o.status != Submitted
    requires e.rows == d.rows + added + [o] && forall i :: 0 <= i < |added| ==> added[i].orderId == o.orderId
    ensures NoNewTies(d, e)
  {
    hide LastIndex, LatestIndex;
    AppendOwn(d.rows + added, o);
    forall k | k in e.venue.all && Tied(e, k)
      ensures k in d.venue.all && Tied(d, k)
    {
      if k != o.orderId {
        AppendedElsewhere(d.rows, added, k);
        AppendOther(d.rows + added, o, k);
      }
    }
  }

  lemma SameTies(d: DeskState, e: DeskState)
    requires e.venue.all == d.venue.all && e.rows == d.rows
    ensures NoNewTies(d, e)
  {
  }

  lemma TiesOn(d: DeskState, e: DeskState, f: DeskState)
    requires NoNewTies(d, e) && NoNewTies(e, f)
    ensures NoNewTies(d, f)
  {
    hide Tied;
  }

  lemma {:induction false} TryFillTies(env: Env, d: DeskState, oid: OrderId, book: Book)
    requires Good(d) && env.engine.Sane() && PositiveBook(book)
    ensures NoNewTies(d, TryFill(env, d, oid, book))
  {
    hide Consistent, Explained, Attempt, NewAverage, NoNewTies;
    var e := TryFill(env, d, oid, book);
    if oid !in d.venue.open {
      SameTies(d, e);
    } else {
      var fill := Attempt(d.venue, env.engine, oid, book, env.clock(d.ticks));
      OpenIsAll(d.venue, oid);
      OfferedFill(env, d, oid, book, env.clock(d.ticks));
      if fill.None? {
        SameTies(d, e);
      } else {
        var o := Updated(d.venue.open[oid], fill.value);
        var added := if oid in d.orders then [Updated(d.orders[oid], fill.value)] else [];
        assert e.rows == d.rows + added + [o];
        Untied(d, e, added, o);
      }
    }
  }

  lemma {:induction false} TryFillEachTies(env: Env, d: DeskState, ids: seq<OrderId>, book: Book)
    requires Good(d) && env.engine.Sane() && PositiveBook(book)
    ensures NoNewTies(d, TryFillEach(env, d, ids, book))
  {
    hide Good, TryFill, NoNewTies;
    if |ids| == 0 {
      SameTies(d, d);
    } else {
      var before := TryFillEach(env, d, ids[..|ids| - 1], book);
      TryFillEachTies(env, d, ids[..|ids| - 1], book);
      TryFillEachKeeps(env, d, ids[..|ids| - 1], book);
      TryFillTies(env, before, ids[|ids| - 1], book);
      TiesOn(d, before, TryFillEach(env, d, ids, book));
    }
  }

  lemma {:induction false} CancelEachTies(env: Env, d: DeskState, ids: seq<OrderId>)
    requires Good(d)
    ensures NoNewTies(d, CancelEach(env, d, ids))
  {
    hide Good, CancelOne, NoNewTies;
    if |ids| == 0 {
      SameTies(d, d);
    } else {
      var before := CancelEach(env, d, ids[..|ids| - 1]);
      CancelEachTies(env, d, ids[..|ids| - 1]);
      CancelEachKeeps(env, d, ids[..|ids| - 1]);
      CancelOneTies(env, before, ids[|ids| - 1]);
      TiesOn(d, before, CancelEach(env, d, ids));
    }
  }

  lemma CancelOneTies(env: Env, d: DeskState, oid: OrderId)
    requires Good(d)
    ensures NoNewTies(d, CancelOne(env, d, oid))
  {
    hide Consistent, Explained, NoNewTies;
    var e := CancelOne(env, d, oid);
    if oid in d.venue.open {
      OpenIsAll(d.venue, oid);
      assert e.rows == d.rows + [] + [e.venue.all[oid]];
      Untied(d, e, [], e.venue.all[oid]);
    } else {
      SameTies(d, e);
    }
  }

  /** No input but a submit ties an order. */
  lemma {:induction false} NextTies(env: Env, d: DeskState, i: Input)
    requires Good(d) && env.engine.Sane() && InputOk(i) && !i.SubmitIn?
    ensures NoNewTies(d, Next(env, d, i))
  {
    hide Good, NoNewTies, CancelEach, CancelOne, TryFillEach, StoreBook, Restart;
    match i
    case CancelIn(oid) => CancelOneTies(env, d, oid);
    case CancelAllIn(symbol) => CancelEachTies(env, d, IdsOn(Working(d.orders), symbol));
    case BookIn(book) =>
      var stored := d.(venue := StoreBook(d.venue, book));
      StoredKeeps(d, book);
      StoredTies(d, book);
      TryFillEachTies(env, stored, IdsOn(d.venue.open, Some(book.symbol)), book);
      TiesOn(d, stored, Next(env, d, i));
    case ClockIn => SameTies(d, Next(env, d, i));
    case RestartIn => RestartTies(d);
  }

  lemma StoredTies(d: DeskState, book: Book)
    ensures NoNewTies(d, d.(venue := StoreBook(d.venue, book)))
  {
    hide NoNewTies;
    SameTies(d, d.(venue := StoreBook(d.venue, book)));
  }

  lemma RestartTies(d: DeskState)
    ensures NoNewTies(d, Restart(d))
  {
    hide NoNewTies, ReadLatest;
    SameTies(d, Restart(d));
  }

  /** What the `k`-th input has to find if it is a submit: readings that make the venue's version the latest row. */
  predicate SubmitInTime(env: Env, inputs: seq<Input>, k: nat)
    requires k < |inputs|
  {
    var d := Run(env, FRESH_DESK, inputs[..k]);
    inputs[k].SubmitIn? ==>
      VersionIsLatest(env.clock, d.ticks, TradesAtOnce(d.venue, RequestOf(inputs[k].intent, inputs[k].cid)))
  }

  /**
    Over a whole run on a clock that does not go backwards: the journal recovers the working orders
    after every input exactly if the clock advanced during every submit, up to the last change it made.
   */
  lemma {:induction false} EveryPrefixRecoversIff(env: Env, inputs: seq<Input>)
    requires Monotone(env.clock, false) && env.engine.Sane()
    requires forall i :: 0 <= i < |inputs| ==> InputOk(inputs[i])
    ensures (forall n :: 0 <= n <= |inputs| ==> Recovers(Run(env, FRESH_DESK, inputs[..n])))
            <==> (forall k :: 0 <= k < |inputs| ==> SubmitInTime(env, inputs, k))
  {
    hide Run, Next, Recovers, SubmitInTime;
    if forall n :: 0 <= n <= |inputs| ==> Recovers(Run(env, FRESH_DESK, inputs[..n])) {
      forall k | 0 <= k < |inputs|
        ensures SubmitInTime(env, inputs, k)
      {
        StepRecoversIff(env, inputs, k);
      }
    }
    if forall k :: 0 <= k < |inputs| ==> SubmitInTime(env, inputs, k) {
      forall n | 0 <= n <= |inputs|
        ensures Recovers(Run(env, FRESH_DESK, inputs[..n]))
      {
        RecoversUpTo(env, inputs, n);
      }
    }
  }

  lemma {:induction false} RecoversUpTo(env: Env, inputs: seq<Input>, n: nat)
    requires Monotone(env.clock, false) && env.engine.Sane() && n <= |inputs|
    requires forall i :: 0 <= i < |inputs| ==> InputOk(inputs[i])
    requires forall k :: 0 <= k < |inputs| ==> SubmitInTime(env, inputs, k)
    ensures Recovers(Run(env, FRESH_DESK, inputs[..n]))
  {
    hide Next, Recovers, SubmitInTime;
    if n == 0 {
      FreshRecovers();
    } else {
      RecoversUpTo(env, inputs, n - 1);
      StepRecoversIff(env, inputs, n - 1);
    }
  }

  lemma FreshRecovers()
    ensures Recovers(FRESH_DESK)
  {
    assert Ids([]) == {};
  }

  /** From a recovering prefix, the next one recovers exactly if the input between them is in time. */
  lemma {:induction false} StepRecoversIff(env: Env, inputs: seq<Input>, k: nat)
    requires Monotone(env.clock, false) && env.engine.Sane() && k < |inputs|
    requires forall i :: 0 <= i < |inputs| ==> InputOk(inputs[i])
    requires Recovers(Run(env, FRESH_DESK, inputs[..k]))
    ensures Recovers(Run(env, FRESH_DESK, inputs[..k + 1])) <==> SubmitInTime(env, inputs, k)
  {
    hide Sound, NoNewTies, Tied, ReadLatest, TradesAtOnce, VersionIsLatest, Submit, CancelOne, CancelAll, OnOrderbook,
        Restart;
    var d := Run(env, FRESH_DESK, inputs[..k]);
    assert inputs[..k + 1][..k] == inputs[..k] && inputs[..k + 1][k] == inputs[k];
    FreshIsSound(env, false);
    RunRows(env, FRESH_DESK, inputs[..k], false);
    SoundIsGood(env, d);
    var e := Next(env, d, inputs[k]);
    assert Run(env, FRESH_DESK, inputs[..k + 1]) == e;
    if inputs[k].SubmitIn? {
      SubmitRecoversIff(env, d, inputs[k].intent, inputs[k].cid);
    } else {
      NextRows(env, d, inputs[k], false);
      NextTies(env, d, inputs[k]);
      RecoversUnlessTied(env, d);
      RecoversUnlessTied(env, e);
      UntiedStays(d, e);
    }
  }

  lemma SoundIsGood(env: Env, d: DeskState)
    requires Sound(env, d, false)
    ensures Good(d)
  {
  }

  lemma UntiedStays(d: DeskState, e: DeskState)
    requires NoNewTies(d, e) && forall k :: k in d.venue.all ==> !Tied(d, k)
    ensures forall k :: k in e.venue.all ==> !Tied(e, k)
  {
    hide Tied;
  }

  // ----- Other restarts

  /**
    With the in-memory reader, on a clock that does not go backwards: the restored cache mirrors the
    venue exactly if something happened to every order after its submit returned.
   */
  lemma {:induction false} InMemoryRestartIff(env: Env, d: DeskState)
    requires Sound(env, d, false)
    ensures (forall k :: k in d.venue.all ==> LastIndex(d.rows, k) >= 0)
    ensures Mirrors(RestartInMemory(d))
            <==> forall k :: k in d.venue.all ==> d.rows[LastIndex(d.rows, k)].status != Submitted
  {
    hide LatestIndex, LastIndex, Ids, Consistent, Explained, RowOk, RowsPast;
    var read := ReadLast(d.rows);
    forall k | k in d.venue.all
      ensures LastIndex(d.rows, k) >= 0 && k in Ids(d.rows) && d.venue.all[k].status != Submitted
      ensures d.rows[LastIndex(d.rows, k)].status != Submitted ==> d.rows[LastIndex(d.rows, k)] == d.venue.all[k]
      ensures k in d.venue.open <==> !IsTerminal(d.venue.all[k].status)
    {
      LastRow(env, d, k);
    }
    OpenWithin(d);
    if k :| k in d.venue.all && d.rows[LastIndex(d.rows, k)].status == Submitted {
      assert k in read && read[k].status == Submitted;
      assert !Mirrors(RestartInMemory(d));
    } else {
      forall k | k in read
        ensures k in d.venue.all && read[k] == d.venue.all[k]
      {
        assert d.rows[LastIndex(d.rows, k)].orderId == k;
      }
    }
  }

  lemma LastRow(env: Env, d: DeskState, oid: OrderId)
    requires Sound(env, d, false) && oid in d.venue.all
    ensures LastIndex(d.rows, oid) >= 0 && d.venue.all[oid].status != Submitted
    ensures d.rows[LastIndex(d.rows, oid)].status != Submitted ==> d.rows[LastIndex(d.rows, oid)] == d.venue.all[oid]
    ensures oid in d.venue.open <==> !IsTerminal(d.venue.all[oid].status)
  {
    hide LatestIndex, LastIndex, Exposure, Explained;
    assert RowOk(d.rows, oid, d.venue.all[oid], false);
    VersionIsVenues(d, oid);
  }

  /** A new process mirrors its empty venue exactly if the journal reads nothing back. */
  lemma NewProcessMirrorsIff(d: DeskState)
    ensures Mirrors(NewProcess(d)) <==> ReadLatest(d.rows) == map[]
  {
    hide LatestIndex, Ids;
    var read := ReadLatest(d.rows);
    if read != map[] {
      var k :| k in read;
      assert k in NewProcess(d).orders;
    }
  }

  /** Otherwise the old working orders stay: `cancel_all` finds none of them at the venue and counts none. */
  lemma {:induction false} NewProcessCancelsNothing(env: Env, d: DeskState, symbol: Option<Symbol>)
    ensures CancelAll(env, NewProcess(d), symbol) == NewProcess(d)
    ensures CancelCount(env, NewProcess(d), IdsOn(Working(NewProcess(d).orders), symbol)) == 0
    ensures Working(NewProcess(d).orders) == ReadLatest(d.rows)
  {
    hide ReadLatest, Working, CancelEach, CancelCount, IdsOn;
    NothingToCancel(env, NewProcess(d), IdsOn(Working(NewProcess(d).orders), symbol));
    ReadIsWorking(d.rows);
  }

  lemma ReadIsWorking(rows: seq<Order>)
    ensures Working(ReadLatest(rows)) == ReadLatest(rows)
  {
    hide LatestIndex, Ids;
    var read, working := ReadLatest(rows), Working(ReadLatest(rows));
    forall k
      ensures AgreeOn(working, read, k)
    {
    }
    AgreeEverywhere(working, read);
  }

  lemma {:induction false} NothingToCancel(env: Env, d: DeskState, ids: seq<OrderId>)
    requires d.venue.open == map[]
    ensures CancelEach(env, d, ids) == d && CancelCount(env, d, ids) == 0
  {
    if |ids| > 0 {
      NothingToCancel(env, d, ids[..|ids| - 1]);
    }
  }

  /** And the first order of the new process takes id 1, under which the journal already has rows. */
  lemma {:induction false} NewProcessReusesIds(env: Env, d: DeskState, intent: TradeIntent, cid: string)
    requires Sound(env, d, false) && d.venue.nextOid >= 1
    ensures var e := Submit(env, NewProcess(d), intent, cid);
            && e.venue.nextOid == 1 && LastIndex(d.rows, 1) >= 0
            && |e.rows| > |d.rows| && e.rows[..|d.rows|] == d.rows && e.rows[|d.rows|].orderId == 1
  {
    hide Sound, ReadLatest, Submit, LastIndex;
    HasFirst(env, d);
    LastRow(env, d, 1);
    SubmitTakesNextId(env, NewProcess(d), intent, cid);
    SubmitAppends(env, NewProcess(d), intent, cid);
  }

  lemma HasFirst(env: Env, d: DeskState)
    requires Sound(env, d, false) && d.venue.nextOid >= 1
    ensures 1 in d.venue.all
  {
  }

  /** A submit appends rows, the first of them about the order it places. */
  lemma SubmitAppends(env: Env, d: DeskState, intent: TradeIntent, cid: string)
    ensures var e := Submit(env, d, intent, cid);
            |e.rows| > |d.rows| && e.rows[..|d.rows|] == d.rows && e.rows[|d.rows|].orderId == d.venue.nextOid + 1
  {
    hide Attempt, Updated, WouldCross;
    var d' := d.(ticks := d.ticks + 1);
    var accepted := Accepted(env, d', RequestOf(intent, cid));
    assert accepted.rows == d.rows + [accepted.venue.all[d.venue.nextOid + 1]];
  }

  lemma SubmitTakesNextId(env: Env, d: DeskState, intent: TradeIntent, cid: string)
    ensures Submit(env, d, intent, cid).venue.nextOid == d.venue.nextOid + 1
  {
    hide Attempt, Updated, WouldCross;
  }

  // ----- Cancelling everything

  /** Cancelling a list of distinct working orders cancels exactly those. */
  lemma {:induction false} CancelEachExact(env: Env, d: DeskState, ids: seq<OrderId>)
    requires Consistent(d.venue)
    requires forall i :: 0 <= i < |ids| ==> ids[i] in d.venue.open
    requires forall i, j :: 0 <= i < j < |ids| ==> ids[i] != ids[j]
    ensures var e := CancelEach(env, d, ids);
            && (forall k :: k in e.venue.open <==> k in d.venue.open && k !in ids)
            && (forall k :: k in e.venue.open ==> e.venue.open[k] == d.venue.open[k])
            && e.venue.all.Keys == d.venue.all.Keys
            && (forall k :: k in d.venue.all ==>
                  if k in ids then e.venue.all[k]
                      == d.venue.all[k].(status := Cancelled, updatedAt := e.venue.all[k].updatedAt)
                  else e.venue.all[k] == d.venue.all[k])
            && CancelCount(env, d, ids) == |ids|
            && e.venue.positions == d.venue.positions && e.venue.books == d.venue.books && e.fills == d.fills
  {
    hide CancelOne, Consistent;
    if |ids| > 0 {
      var last := |ids| - 1;
      var before, oid := CancelEach(env, d, ids[..last]), ids[last];
      CancelEachExact(env, d, ids[..last]);
      assert oid !in ids[..last] && oid in before.venue.open;
      forall k
        ensures k in ids <==> k in ids[..last] || k == oid
      {
        assert ids == ids[..last] + [oid];
      }
      CancelOneExact(env, before, oid);
      OpenIsAll(d.venue, oid);
    }
  }

  lemma CancelOneExact(env: Env, d: DeskState, oid: OrderId)
    requires oid in d.venue.open
    ensures var e := CancelOne(env, d, oid);
            var cancelled := d.venue.open[oid].(status := Cancelled, updatedAt := env.clock(d.ticks));
            && e.venue == d.venue.(open := d.venue.open - {oid}, all := d.venue.all[oid := cancelled])
            && e.fills == d.fills
  {
  }

  /** The orders a symbol filter leaves out; without a symbol it leaves out none. */
  function NotOn(orders: map<OrderId, Order>, symbol: Option<Symbol>): map<OrderId, Order> {
    map k | k in orders && symbol.Some? && orders[k].symbol != symbol.value :: orders[k]
  }

  /**
    `cancel_all` over the paper venue: afterwards neither the venue nor the order manager has a
    working order on that symbol (or at all), the count is how many there were, and nothing else changed.
   */
  lemma {:induction false} CancelAllCancels(env: Env, d: DeskState, symbol: Option<Symbol>)
    requires Good(d) && Mirrors(d)
    ensures var e := CancelAll(env, d, symbol);
            && e.venue.open == NotOn(d.venue.open, symbol)
            && CancelCount(env, d, IdsOn(Working(d.orders), symbol)) == |d.venue.open| - |e.venue.open|
            && (forall k :: k in d.venue.all && k !in d.venue.open ==>
                 k in e.venue.all && e.venue.all[k] == d.venue.all[k])
            && e.venue.positions == d.venue.positions && e.venue.books == d.venue.books && e.fills == d.fills
  {
    hide Good, CancelEach, CancelCount, IdsOn, Mirrors, Consistent, Working;
    GoodMirrors(d);
    var ids := IdsOn(d.venue.open, symbol);
    IdsDistinct(d.venue.open, symbol);
    assert forall i :: 0 <= i < |ids| ==> ids[i] in ids && ids[i] in d.venue.open;
    CancelEachExact(env, d, ids);
    var e := CancelAll(env, d, symbol);
    forall k | k in d.venue.all && k !in d.venue.open
      ensures k in e.venue.all && e.venue.all[k] == d.venue.all[k]
    {
      assert k !in ids;
    }
    OpenAfter(d.venue.open, e.venue.open, ids);
    var rest := NotOn(d.venue.open, symbol);
    forall k
      ensures (k in e.venue.open <==> k in rest) && (k in rest ==> e.venue.open[k] == rest[k])
    {
      assert k in ids <==> k in d.venue.open && (symbol.Some? ==> d.venue.open[k].symbol == symbol.value);
    }
    SameMap(e.venue.open, rest);
  }

  lemma GoodMirrors(d: DeskState)
    requires Good(d) && Mirrors(d)
    ensures Consistent(d.venue) && Working(d.orders) == d.venue.open
  {
    MirrorWorking(d);
  }

  lemma {:induction false} OpenAfter(before: map<OrderId, Order>, after: map<OrderId, Order>, ids: seq<OrderId>)
    requires forall i, j :: 0 <= i < j < |ids| ==> ids[i] != ids[j]
    requires forall k :: k in ids ==> k in before
    requires forall k :: k in after <==> k in before && k !in ids
    ensures |after| == |before| - |ids|
  {
    IdsCount(ids);
    var cancelled := set k | k in ids;
    forall k
      ensures k in before.Keys <==> k in after.Keys || k in cancelled
      ensures !(k in after.Keys && k in cancelled)
    {
      assert k in cancelled <==> k in ids;
    }
    assert before.Keys == after.Keys + cancelled;
    assert after.Keys !! cancelled;
    assert |before.Keys| == |after.Keys| + |cancelled|;
  }

  lemma IdsDistinct(orders: map<OrderId, Order>, symbol: Option<Symbol>)
    ensures var ids := IdsOn(orders, symbol);
            forall i, j :: 0 <= i < j < |ids| ==> ids[i] != ids[j]
  {
    IdsOrdered();
  }

  lemma {:induction false} IdsCount(ids: seq<OrderId>)
    requires forall i, j :: 0 <= i < j < |ids| ==> ids[i] != ids[j]
    ensures |set k | k in ids| == |ids|
  {
    if |ids| > 0 {
      var rest := ids[1..];
      IdsCount(rest);
      assert (set k | k in ids) == (set k | k in rest) + {ids[0]};
    }
  }

  /** Without a symbol nothing stays open on either side. */
  lemma {:induction false} CancelAllEmpties(env: Env, d: DeskState)
    requires Good(d) && Mirrors(d)
    ensures var e := CancelAll(env, d, None);
            e.venue.open == map[] && Mirrors(e) && Working(e.orders) == map[] && Consistent(e.venue)
  {
    CancelAllCancels(env, d, None);
    CancelEachKeeps(env, d, IdsOn(Working(d.orders), None));
    MirrorWorking(CancelAll(env, d, None));
  }
}
