/**
  The order manager over the paper venue and its journal, callbacks running to completion.

  The venue calls back into the order manager, which keeps its own dictionary of orders and writes
  every version it sees to the journal.  The desk is all of that as one value; the clock is a
  sequence of readings, of which `ticks` have been taken.
 */
module Desk {
  import opened Domain
  import opened FillEngines
  import opened Venue
  import opened Journal

  datatype Env = Env(clock: nat -> Time, engine: FillEngine)

  /** `orders` is the order manager's cache; `rows` and `fills` are the journal's two tables. */
  datatype DeskState = DeskState(
    venue: VenueState, orders: map<OrderId, Order>, rows: seq<Order>, fills: seq<Fill>, ticks: nat)

  const FRESH_DESK := DeskState(EMPTY_VENUE, map[], [], [], 0)

  // ----- Callbacks

  /** `_on_order_update`: the venue's word replaces the cache. */
  function OnOrderUpdate(d: DeskState, order: Order): DeskState {
    d.(orders := d.orders[order.orderId := order], rows := d.rows + [order])
  }

  /** `_on_fill`: journal the fill, and guess the new order version from the cached one. */
  function OnFill(d: DeskState, fill: Fill): DeskState {
    var e := d.(fills := d.fills + [fill]);
    if fill.orderId !in d.orders then e
    else
      var updated := Updated(d.orders[fill.orderId], fill);
      e.(orders := e.orders[fill.orderId := updated], rows := e.rows + [updated])
  }

  // ----- Venue operations with their callbacks

  /** `_apply_fill_to_order`: the fill is fired before the order update. */
  function FillFired(d: DeskState, oid: OrderId, fill: Fill): DeskState
    requires oid in d.venue.open
  {
    var v := ApplyToOrder(d.venue, d.venue.open[oid], fill);
    OnOrderUpdate(OnFill(d.(venue := v), fill), Updated(d.venue.open[oid], fill))
  }

  function TryFill(env: Env, d: DeskState, oid: OrderId, book: Book): DeskState {
    if oid !in d.venue.open then d
    else
      var fill := Attempt(d.venue, env.engine, oid, book, env.clock(d.ticks));
      var e := d.(ticks := d.ticks + 1);
      if fill.None? then e else FillFired(e, oid, fill.value)
  }

  function Accepted(env: Env, d: DeskState, req: OrderRequest): DeskState {
    var v := Accept(d.venue, req, env.clock(d.ticks));
    OnOrderUpdate(d.(venue := v, ticks := d.ticks + 1), v.all[v.nextOid])
  }

  function PlaceOrder(env: Env, d: DeskState, req: OrderRequest): DeskState {
    var e := Accepted(env, d, req);
    if InitialStatus(d.venue, req) == Acked && req.symbol in e.venue.books
    then TryFill(env, e, e.venue.nextOid, e.venue.books[req.symbol])
    else e
  }

  function TryFillEach(env: Env, d: DeskState, ids: seq<OrderId>, book: Book): DeskState {
    if |ids| == 0 then d
    else TryFill(env, TryFillEach(env, d, ids[..|ids| - 1], book), ids[|ids| - 1], book)
  }

  lemma TryFillNone(env: Env, d: DeskState, book: Book)
    ensures TryFillEach(env, d, [], book) == d
  {
  }

  lemma TryFillNext(env: Env, d: DeskState, ids: seq<OrderId>, i: int, book: Book)
    requires 0 <= i < |ids|
    ensures TryFillEach(env, d, ids[..i + 1], book) == TryFill(env, TryFillEach(env, d, ids[..i], book), ids[i], book)
  {
    assert ids[..i + 1][..i] == ids[..i];
  }

  /** `_on_orderbook`. */
  function OnOrderbook(env: Env, d: DeskState, book: Book): DeskState {
    TryFillEach(env, d.(venue := StoreBook(d.venue, book)), IdsOn(d.venue.open, Some(book.symbol)), book)
  }

  /** `cancel_order`, which reports whether there was something to cancel. */
  function CancelOne(env: Env, d: DeskState, oid: OrderId): DeskState {
    if oid !in d.venue.open then d
    else
      var v := CancelOrder(d.venue, oid, env.clock(d.ticks));
      OnOrderUpdate(d.(venue := v, ticks := d.ticks + 1), v.all[oid])
  }

  // ----- Order manager operations

  function RequestOf(intent: TradeIntent, cid: string): OrderRequest {
    OrderRequest(intent.symbol, intent.side, intent.kind, intent.quantity, cid, intent.price,
                 intent.timeInForce, intent.reduceOnly)
  }

  /** The audit row `submit` writes after the venue returns, stamped with the time before the call. */
  function SubmittedRow(oid: OrderId, intent: TradeIntent, cid: string, submittedAt: Time): Order {
    Order(oid, cid, intent.symbol, intent.side, intent.kind, intent.quantity, 0.0, intent.price, None,
          Submitted, intent.timeInForce, intent.reduceOnly, submittedAt, submittedAt)
  }

  function Submit(env: Env, d: DeskState, intent: TradeIntent, cid: string): DeskState {
    var e := PlaceOrder(env, d.(ticks := d.ticks + 1), RequestOf(intent, cid));
    var oid := e.venue.nextOid;
    var row := SubmittedRow(oid, intent, cid, env.clock(d.ticks));
    e.(rows := e.rows + [row], orders := if oid in e.orders then e.orders else e.orders[oid := row])
  }

  function Working(orders: map<OrderId, Order>): map<OrderId, Order> {
    map k | k in orders && !IsTerminal(orders[k].status) :: orders[k]
  }

  /** The cancels of `cancel_all`, one by one. */
  function CancelEach(env: Env, d: DeskState, ids: seq<OrderId>): DeskState {
    if |ids| == 0 then d else CancelOne(env, CancelEach(env, d, ids[..|ids| - 1]), ids[|ids| - 1])
  }

  /** How many of those cancels report success. */
  function CancelCount(env: Env, d: DeskState, ids: seq<OrderId>): nat {
    if |ids| == 0 then 0
    else
      var last := |ids| - 1;
      CancelCount(env, d, ids[..last]) + (if ids[last] in CancelEach(env, d, ids[..last]).venue.open then 1 else 0)
  }

  function CancelAll(env: Env, d: DeskState, symbol: Option<Symbol>): DeskState {
    CancelEach(env, d, IdsOn(Working(d.orders), symbol))
  }

  /** `start` after a restart of the order manager: the cache is read back from the journal. */
  function Restart(d: DeskState): DeskState {
    d.(orders := ReadLatest(d.rows))
  }

  /** The same with the in-memory journal's reader. */
  function RestartInMemory(d: DeskState): DeskState {
    d.(orders := ReadLast(d.rows))
  }

  /** A new process over the old journal: the venue starts empty, and its ids at 1 again. */
  function NewProcess(d: DeskState): DeskState {
    Restart(d.(venue := EMPTY_VENUE))
  }

  // ----- Runs

  datatype Input =
    | SubmitIn(intent: TradeIntent, cid: string)
    | CancelIn(oid: OrderId)
    | CancelAllIn(symbol: Option<Symbol>)
    | BookIn(book: Book)
    | ClockIn
    | RestartIn

  predicate InputOk(i: Input) {
    match i
    case SubmitIn(intent, _) => intent.quantity > 0.0 && PositivePrice(intent.price)
    case BookIn(book) => PositiveBook(book)
    case _ => true
  }

  function Next(env: Env, d: DeskState, i: Input): DeskState {
    match i
    case SubmitIn(intent, cid) => Submit(env, d, intent, cid)
    case CancelIn(oid) => CancelOne(env, d, oid)
    case CancelAllIn(symbol) => CancelAll(env, d, symbol)
    case BookIn(book) => OnOrderbook(env, d, book)
    case ClockIn => d.(ticks := d.ticks + 1)
    case RestartIn => Restart(d)
  }

  function Run(env: Env, d: DeskState, inputs: seq<Input>): DeskState {
    if |inputs| == 0 then d else Next(env, Run(env, d, inputs[..|inputs| - 1]), inputs[|inputs| - 1])
  }

  // ----- What every input keeps, whatever the clock says

  /** A consistent venue, fills that explain it, and a cache and journal about its orders. */
  ghost predicate Good(d: DeskState) {
    && Consistent(d.venue) && Explained(d.venue, d.fills)
    && (forall k :: k in d.orders ==> d.orders[k].orderId == k)
    && (forall i :: 0 <= i < |d.rows| ==> d.rows[i].orderId in d.venue.all)
  }

  /** The cache holds every working order of the venue, and nothing the venue disagrees with. */
  ghost predicate Mirrors(d: DeskState) {
    && (forall k :: k in d.venue.open ==> k in d.orders)
    && (forall k :: k in d.orders ==> k in d.venue.all && d.orders[k] == d.venue.all[k])
  }

  /** From `d` to `e` a cache that mirrors the venue still does, and a full copy is still full. */
  ghost predicate Follows(d: DeskState, e: DeskState) {
    && (Mirrors(d) ==> Mirrors(e))
    && (d.orders == d.venue.all ==> e.orders == e.venue.all)
  }

  lemma FollowsOn(d: DeskState, e: DeskState, f: DeskState)
    requires Follows(d, e) && Follows(e, f)
    ensures Follows(d, f)
  {
    hide Mirrors;
  }

  lemma {:induction false} AcceptedKeeps(env: Env, d: DeskState, req: OrderRequest)
    requires Good(d) && req.quantity > 0.0 && PositivePrice(req.price)
    ensures Good(Accepted(env, d, req)) && Follows(d, Accepted(env, d, req))
  {
    hide Consistent, Explained;
    AcceptKeeps(d.venue, req, env.clock(d.ticks), d.fills);
  }

  lemma {:induction false} FilledKeeps(d: DeskState, oid: OrderId, fill: Fill)
    requires Good(d) && oid in d.venue.open && FillFor(d.venue.open[oid], fill)
    ensures var e := FillFired(d, oid, fill);
            Good(e) && Follows(d, e) && e.ticks == d.ticks && e.fills == d.fills + [fill]
  {
    hide Consistent, Explained, NewAverage;
    FillKeeps(d.venue, oid, fill, d.fills);
    OpenIsAll(d.venue, oid);
    assert fill.orderId == oid;
  }

  lemma OpenIsAll(v: VenueState, oid: OrderId)
    requires Consistent(v) && oid in v.open
    ensures oid in v.all && v.open[oid] == v.all[oid] && v.all[oid].orderId == oid && OrderOk(v.all[oid])
  {
  }

  /** A fill the engine offers is one the venue can apply. */
  lemma OfferedFill(env: Env, d: DeskState, oid: OrderId, book: Book, now: Time)
    requires Good(d) && env.engine.Sane() && PositiveBook(book) && oid in d.venue.open
    ensures var fill := Attempt(d.venue, env.engine, oid, book, now);
            fill.Some? ==> FillFor(d.venue.open[oid], fill.value) && fill.value.timestamp == now
  {
    hide Consistent, Explained;
    OpenIsAll(d.venue, oid);
    FillIsSane(env.engine, d.venue.open[oid], book, now);
  }

  lemma {:induction false} TryFillKeepsDesk(env: Env, d: DeskState, oid: OrderId, book: Book)
    requires Good(d) && env.engine.Sane() && PositiveBook(book)
    ensures Good(TryFill(env, d, oid, book)) && Follows(d, TryFill(env, d, oid, book))
  {
    hide Consistent, Explained, FillFired, Attempt;
    if oid in d.venue.open {
      var now, e := env.clock(d.ticks), d.(ticks := d.ticks + 1);
      var fill := Attempt(d.venue, env.engine, oid, book, now);
      OfferedFill(env, d, oid, book, now);
      if fill.Some? {
        FilledKeeps(e, oid, fill.value);
      }
    }
  }

  lemma {:induction false} PlaceOrderKeeps(env: Env, d: DeskState, req: OrderRequest)
    requires Good(d) && env.engine.Sane() && req.quantity > 0.0 && PositivePrice(req.price)
    ensures Good(PlaceOrder(env, d, req)) && Follows(d, PlaceOrder(env, d, req))
  {
    hide Good, Follows, Accepted, TryFill;
    AcceptedKeeps(env, d, req);
    var e := Accepted(env, d, req);
    if InitialStatus(d.venue, req) == Acked && req.symbol in e.venue.books {
      KnownBook(e, req.symbol);
      TryFillKeepsDesk(env, e, e.venue.nextOid, e.venue.books[req.symbol]);
      FollowsOn(d, e, PlaceOrder(env, d, req));
    }
  }

  lemma KnownBook(d: DeskState, symbol: Symbol)
    requires Good(d) && symbol in d.venue.books
    ensures PositiveBook(d.venue.books[symbol])
  {
  }

  lemma {:induction false} TryFillEachKeeps(env: Env, d: DeskState, ids: seq<OrderId>, book: Book)
    requires Good(d) && env.engine.Sane() && PositiveBook(book)
    ensures Good(TryFillEach(env, d, ids, book)) && Follows(d, TryFillEach(env, d, ids, book))
  {
    hide Good, TryFill, Mirrors;
    if |ids| > 0 {
      var before := TryFillEach(env, d, ids[..|ids| - 1], book);
      TryFillEachKeeps(env, d, ids[..|ids| - 1], book);
      TryFillKeepsDesk(env, before, ids[|ids| - 1], book);
    }
  }

  lemma {:induction false} OnOrderbookKeeps(env: Env, d: DeskState, book: Book)
    requires Good(d) && env.engine.Sane() && PositiveBook(book)
    ensures Good(OnOrderbook(env, d, book)) && Follows(d, OnOrderbook(env, d, book))
  {
    hide Good, Follows, TryFillEach, StoreBook;
    var e := d.(venue := StoreBook(d.venue, book));
    StoredKeeps(d, book);
    TryFillEachKeeps(env, e, IdsOn(d.venue.open, Some(book.symbol)), book);
    FollowsOn(d, e, OnOrderbook(env, d, book));
  }

  lemma StoredKeeps(d: DeskState, book: Book)
    requires Good(d) && PositiveBook(book)
    ensures var e := d.(venue := StoreBook(d.venue, book)); Good(e) && Follows(d, e)
  {
    hide Consistent, Explained;
    StoreKeeps(d.venue, book, d.fills);
  }

  lemma {:induction false} CancelOneKeeps(env: Env, d: DeskState, oid: OrderId)
    requires Good(d)
    ensures Good(CancelOne(env, d, oid)) && Follows(d, CancelOne(env, d, oid))
  {
    hide Consistent, Explained;
    if oid in d.venue.open {
      OpenIsAll(d.venue, oid);
      CancelKeeps(d.venue, oid, env.clock(d.ticks), d.fills);
    }
  }

  lemma {:induction false} CancelEachKeeps(env: Env, d: DeskState, ids: seq<OrderId>)
    requires Good(d)
    ensures Good(CancelEach(env, d, ids)) && Follows(d, CancelEach(env, d, ids))
  {
    hide Good, Mirrors, CancelOne;
    if |ids| > 0 {
      CancelEachKeeps(env, d, ids[..|ids| - 1]);
      CancelOneKeeps(env, CancelEach(env, d, ids[..|ids| - 1]), ids[|ids| - 1]);
    }
  }

  // ----- What the journal says, on a clock that does not go backwards

  /** Later readings are not earlier; with `strict`, later. */
  ghost predicate Monotone(clock: nat -> Time, strict: bool) {
    forall i, j :: 0 <= i < j ==> clock(i) <= clock(j) && (strict ==> clock(i) < clock(j))
  }

  /**
    What the journal says of order `oid`.  Either its last written row and its latest row are the
    venue's version, or nothing happened to it since its SUBMITTED row was written: then that row
    is last, and it is also the latest if it ties with the venue's version.
   */
  ghost predicate RowOk(rows: seq<Order>, oid: OrderId, o: Order, strict: bool) {
    var last, latest := LastIndex(rows, oid), LatestIndex(rows, oid);
    && last >= 0 && latest >= 0
    && ((rows[last] == o && rows[latest] == o)
        || (&& rows[last].status == Submitted
            && rows[last].updatedAt <= o.updatedAt
            && (strict ==> rows[last].updatedAt < o.updatedAt)
            && rows[latest] == (if rows[last].updatedAt < o.updatedAt then o else rows[last])))
  }

  ghost predicate RowsOk(d: DeskState, strict: bool) {
    forall k :: k in d.venue.all ==> RowOk(d.rows, k, d.venue.all[k], strict)
  }

  /** No row is later than `now`. */
  ghost predicate RowsPast(d: DeskState, now: Time) {
    forall i :: 0 <= i < |d.rows| ==> d.rows[i].updatedAt <= now
  }

  ghost predicate Sound(env: Env, d: DeskState, strict: bool) {
    Good(d) && RowsOk(d, strict) && RowsPast(d, env.clock(d.ticks))
  }

  /** Order `oid` becomes `o` and its newest rows, all stamped `now`, end with `o`. */
  lemma {:induction false} TouchRows(d: DeskState, e: DeskState, o: Order, now: Time, strict: bool)
    requires RowsOk(d, strict) && RowsPast(d, now)
    requires e.venue.all == d.venue.all[o.orderId := o] && e.rows == d.rows + [o] && o.updatedAt == now
    ensures RowsOk(e, strict) && RowsPast(e, now)
  {
    hide LatestIndex, LastIndex;
    AppendOwn(d.rows, o);
    forall k | k in e.venue.all
      ensures RowOk(e.rows, k, e.venue.all[k], strict)
    {
      if k != o.orderId {
        assert RowOk(d.rows, k, d.venue.all[k], strict);
        AppendOther(d.rows, o, k);
      }
    }
  }

  lemma RowsLater(d: DeskState, now: Time, later: Time)
    requires RowsPast(d, now) && now <= later
    ensures RowsPast(d, later)
  {
  }

  lemma SameRows(d: DeskState, e: DeskState, strict: bool)
    requires RowsOk(d, strict) && e.rows == d.rows && e.venue.all == d.venue.all
    ensures RowsOk(e, strict)
  {
  }

  lemma {:induction false} AcceptedRows(env: Env, d: DeskState, req: OrderRequest, strict: bool)
    requires Monotone(env.clock, strict) && Sound(env, d, strict)
    requires req.quantity > 0.0 && PositivePrice(req.price)
    ensures Sound(env, Accepted(env, d, req), strict)
  {
    hide Good, RowsOk, RowsPast;
    var now, e := env.clock(d.ticks), Accepted(env, d, req);
    AcceptedKeeps(env, d, req);
    TouchRows(d, e, NewOrder(d.venue, req, now), now, strict);
    RowsLater(e, now, env.clock(e.ticks));
  }

  lemma {:induction false} FilledRows(d: DeskState, oid: OrderId, fill: Fill, now: Time, strict: bool)
    requires Good(d) && RowsOk(d, strict) && RowsPast(d, now)
    requires oid in d.venue.open && FillFor(d.venue.open[oid], fill) && fill.timestamp == now
    ensures var e := FillFired(d, oid, fill); RowsOk(e, strict) && RowsPast(e, now)
  {
    hide Consistent, Explained, RowsOk, RowsPast, NewAverage;
    var e := FillFired(d, oid, fill);
    var o := Updated(d.venue.open[oid], fill);
    OpenIsAll(d.venue, oid);
    if oid in d.orders {
      var guess := Updated(d.orders[oid], fill);
      var middle := d.(rows := d.rows + [guess], venue := d.venue.(all := d.venue.all[oid := guess]));
      TouchRows(d, middle, guess, now, strict);
      TouchRows(middle, e, o, now, strict);
    } else {
      TouchRows(d, e, o, now, strict);
    }
  }

  lemma {:induction false} TryFillRows(env: Env, d: DeskState, oid: OrderId, book: Book, strict: bool)
    requires Monotone(env.clock, strict) && Sound(env, d, strict) && env.engine.Sane() && PositiveBook(book)
    ensures Sound(env, TryFill(env, d, oid, book), strict)
  {
    hide Good, RowsOk, RowsPast, FillFired, Attempt;
    TryFillKeepsDesk(env, d, oid, book);
    if oid in d.venue.open {
      var now, e := env.clock(d.ticks), d.(ticks := d.ticks + 1);
      var fill := Attempt(d.venue, env.engine, oid, book, now);
      OfferedFill(env, d, oid, book, now);
      if fill.Some? {
        FilledTicks(d, oid, fill.value);
        FilledRows(d, oid, fill.value, now, strict);
        SameRows(FillFired(d, oid, fill.value), FillFired(e, oid, fill.value), strict);
        RowsLater(FillFired(d, oid, fill.value), now, env.clock(e.ticks));
        PastAtAnyTick(FillFired(d, oid, fill.value), FillFired(e, oid, fill.value), env.clock(e.ticks));
      } else {
        SameRows(d, e, strict);
        RowsLater(d, now, env.clock(e.ticks));
        PastAtAnyTick(d, e, env.clock(e.ticks));
      }
    }
  }

  lemma FilledTicks(d: DeskState, oid: OrderId, fill: Fill)
    requires oid in d.venue.open
    ensures FillFired(d.(ticks := d.ticks + 1), oid, fill) == FillFired(d, oid, fill).(ticks := d.ticks + 1)
  {
  }

  lemma PastAtAnyTick(d: DeskState, e: DeskState, now: Time)
    requires RowsPast(d, now) && e.rows == d.rows
    ensures RowsPast(e, now)
  {
  }

  lemma {:induction false} PlaceOrderRows(env: Env, d: DeskState, req: OrderRequest, strict: bool)
    requires Monotone(env.clock, strict) && Sound(env, d, strict) && env.engine.Sane()
    requires req.quantity > 0.0 && PositivePrice(req.price)
    ensures Sound(env, PlaceOrder(env, d, req), strict)
  {
    hide Good, RowsOk, RowsPast, Accepted, TryFill;
    AcceptedRows(env, d, req, strict);
    var e := Accepted(env, d, req);
    if InitialStatus(d.venue, req) == Acked && req.symbol in e.venue.books {
      KnownBook(e, req.symbol);
      TryFillRows(env, e, e.venue.nextOid, e.venue.books[req.symbol], strict);
    }
  }

  lemma {:induction false} TryFillEachRows(env: Env, d: DeskState, ids: seq<OrderId>, book: Book, strict: bool)
    requires Monotone(env.clock, strict) && Sound(env, d, strict) && env.engine.Sane() && PositiveBook(book)
    ensures Sound(env, TryFillEach(env, d, ids, book), strict)
  {
    hide Sound, TryFill;
    if |ids| > 0 {
      TryFillEachRows(env, d, ids[..|ids| - 1], book, strict);
      TryFillRows(env, TryFillEach(env, d, ids[..|ids| - 1], book), ids[|ids| - 1], book, strict);
    }
  }

  lemma {:induction false} OnOrderbookRows(env: Env, d: DeskState, book: Book, strict: bool)
    requires Monotone(env.clock, strict) && Sound(env, d, strict) && env.engine.Sane() && PositiveBook(book)
    ensures Sound(env, OnOrderbook(env, d, book), strict)
  {
    hide Good, RowsOk, RowsPast, TryFillEach;
    var e := d.(venue := StoreBook(d.venue, book));
    StoredKeeps(d, book);
    SameRows(d, e, strict);
    PastAtAnyTick(d, e, env.clock(e.ticks));
    TryFillEachRows(env, e, IdsOn(d.venue.open, Some(book.symbol)), book, strict);
  }

  lemma {:induction false} CancelOneRows(env: Env, d: DeskState, oid: OrderId, strict: bool)
    requires Monotone(env.clock, strict) && Sound(env, d, strict)
    ensures Sound(env, CancelOne(env, d, oid), strict)
  {
    hide Consistent, Explained, RowsOk, RowsPast;
    CancelOneKeeps(env, d, oid);
    if oid in d.venue.open {
      var now, e := env.clock(d.ticks), CancelOne(env, d, oid);
      OpenIsAll(d.venue, oid);
      TouchRows(d, e, e.venue.all[oid], now, strict);
      RowsLater(e, now, env.clock(e.ticks));
    }
  }

  lemma {:induction false} CancelEachRows(env: Env, d: DeskState, ids: seq<OrderId>, strict: bool)
    requires Monotone(env.clock, strict) && Sound(env, d, strict)
    ensures Sound(env, CancelEach(env, d, ids), strict)
  {
    hide Sound, CancelOne;
    if |ids| > 0 {
      CancelEachRows(env, d, ids[..|ids| - 1], strict);
      CancelOneRows(env, CancelEach(env, d, ids[..|ids| - 1]), ids[|ids| - 1], strict);
    }
  }
}
