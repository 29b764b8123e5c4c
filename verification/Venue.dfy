/**
  The paper venue: its dictionaries, what each of its operations does to them, and what holds of
  them however calls and order-book events interleave.

  An operation of the venue is cut at its `await`s into segments that run without interruption.
  `Exec` runs any sequence of such segments, started and resumed in any order.
 */
module Venue {
  import opened Domain
  import opened Positions
  import opened FillEngines
  import opened Sorting

  /**
    `_next_oid`, `_open_orders`, `_all_orders`, `_positions`, `_latest_book`.  Order ids grow and are
    inserted once, so the insertion order of the two order dictionaries is the order of the ids.
   */
  datatype VenueState = VenueState(
    nextOid: OrderId, open: map<OrderId, Order>, all: map<OrderId, Order>,
    positions: map<Symbol, Position>, books: map<Symbol, Book>)
  {
    function PositionOf(symbol: Symbol): Position {
      if symbol in positions then positions[symbol] else FLAT
    }
  }

  const EMPTY_VENUE := VenueState(0, map[], map[], map[], map[])

  // ----- Uninterrupted segments

  /** `_would_cross_immediately`. */
  predicate WouldCross(req: OrderRequest, book: Book) {
    req.price.Some? && Crosses(req.side, req.price.value, book)
  }

  function InitialStatus(v: VenueState, req: OrderRequest): Status {
    if req.timeInForce == PostOnly && req.symbol in v.books && WouldCross(req, v.books[req.symbol])
    then Rejected else Acked
  }

  function NewOrder(v: VenueState, req: OrderRequest, now: Time): Order {
    Order(v.nextOid + 1, req.clientOrderId, req.symbol, req.side, req.kind, req.quantity, 0.0, req.price, None,
          InitialStatus(v, req), req.timeInForce, req.reduceOnly, now, now)
  }

  /** `place_order` up to its first callback: a new order, working unless rejected. */
  function Accept(v: VenueState, req: OrderRequest, now: Time): VenueState {
    var order := NewOrder(v, req, now);
    v.(nextOid := order.orderId,
       all := v.all[order.orderId := order],
       open := if order.status == Acked then v.open[order.orderId := order] else v.open)
  }

  /** Average price after `fill`: weighted by quantity. */
  function NewAverage(order: Order, fill: Fill): real {
    if order.averagePrice.None? then fill.price
    else
      Quotient(Product(order.averagePrice.value, order.filled) + Product(fill.price, fill.quantity),
               order.filled + fill.quantity)
  }

  function Updated(order: Order, fill: Fill): Order {
    var newFilled := order.filled + fill.quantity;
    order.(filled := newFilled,
           averagePrice := Some(NewAverage(order, fill)),
           status := if newFilled >= order.quantity then Filled else PartiallyFilled,
           updatedAt := fill.timestamp)
  }

  /** `_apply_fill_to_order` up to its callbacks. */
  function ApplyToOrder(v: VenueState, order: Order, fill: Fill): VenueState {
    var updated := Updated(order, fill);
    v.(open := if updated.status == Filled then v.open - {order.orderId} else v.open[order.orderId := updated],
       all := v.all[order.orderId := updated],
       positions := v.positions[fill.symbol := ApplyFill(v.PositionOf(fill.symbol), fill).newState])
  }

  /** What the engine gives a working order, nothing for any other. */
  function Attempt(v: VenueState, e: FillEngine, oid: OrderId, book: Book, now: Time): Option<Fill> {
    if oid in v.open then e.TryFill(v.open[oid], book, now) else None
  }

  /** `_try_fill_order`. */
  function TryFillOrder(v: VenueState, e: FillEngine, oid: OrderId, book: Book, now: Time): VenueState {
    match Attempt(v, e, oid, book, now)
    case None => v
    case Some(fill) => ApplyToOrder(v, v.open[oid], fill)
  }

  /** `cancel_order`. */
  function CancelOrder(v: VenueState, oid: OrderId, now: Time): VenueState {
    if oid !in v.open then v
    else
      v.(open := v.open - {oid}, all := v.all[oid := v.open[oid].(status := Cancelled, updatedAt := now)])
  }

  function StoreBook(v: VenueState, book: Book): VenueState {
    v.(books := v.books[book.symbol := book])
  }

  function Earlier(x: OrderId, y: OrderId): bool {
    x <= y
  }

  lemma IdsOrdered()
    ensures TotalOrder(Earlier)
  {
  }

  /** The orders of `orders` that pass the symbol filter, oldest first. */
  function IdsOn(orders: map<OrderId, Order>, symbol: Option<Symbol>): (ids: seq<OrderId>)
    ensures forall k :: k in ids <==> k in orders && (symbol.Some? ==> orders[k].symbol == symbol.value)
  {
    IdsOrdered();
    var chosen := set k | k in orders && (symbol.Some? ==> orders[k].symbol == symbol.value);
    InOrder(chosen, Earlier)
  }

  // ----- What is true of the dictionaries

  predicate OrderOk(o: Order) {
    && o.quantity > 0.0 && 0.0 <= o.filled <= o.quantity
    && PositivePrice(o.price)
    && (o.averagePrice.None? <==> o.filled == 0.0)
    && match o.status
       case Acked => o.filled == 0.0
       case PartiallyFilled => 0.0 < o.filled < o.quantity
       case Filled => o.filled == o.quantity
       case Cancelled => o.filled < o.quantity
       case Rejected => o.filled == 0.0
       case _ => false
  }

  /** Signed quantity filled by the first `n` orders, counting those on `symbol`. */
  function Exposure(all: map<OrderId, Order>, symbol: Symbol, n: OrderId): real
    decreases if n < 0 then 0 else n
  {
    if n <= 0 then 0.0
    else
      Exposure(all, symbol, n - 1)
      + (if n in all && all[n].symbol == symbol then Signed(all[n].side, all[n].filled) else 0.0)
  }

  ghost predicate OrdersOk(v: VenueState) {
    && v.nextOid >= 0
    && (forall k :: k in v.all <==> 1 <= k <= v.nextOid)
    && (forall k :: k in v.all ==> v.all[k].orderId == k && OrderOk(v.all[k]))
  }

  /** The open orders are exactly the orders that are not terminal. */
  ghost predicate OpenOk(v: VenueState) {
    && (forall k :: k in v.open <==> k in v.all && !IsTerminal(v.all[k].status))
    && (forall k :: k in v.open ==> v.open[k] == v.all[k])
  }

  ghost predicate BooksOk(v: VenueState) {
    forall s :: s in v.books ==> v.books[s].symbol == s && PositiveBook(v.books[s])
  }

  /** Every net position is the signed sum of what the orders on that symbol filled. */
  ghost predicate ExposureOk(v: VenueState) {
    forall s :: v.PositionOf(s).netQty == Exposure(v.all, s, v.nextOid)
  }

  ghost predicate Consistent(v: VenueState) {
    OrdersOk(v) && OpenOk(v) && BooksOk(v) && ExposureOk(v)
  }

  // ----- The fills that explain the dictionaries

  function OnSymbol(fills: seq<Fill>, symbol: Symbol): seq<Fill> {
    if |fills| == 0 then []
    else
      var f := fills[|fills| - 1];
      OnSymbol(fills[..|fills| - 1], symbol) + (if f.symbol == symbol then [f] else [])
  }

  function Traded(fills: seq<Fill>, oid: OrderId): real {
    if |fills| == 0 then 0.0
    else
      var f := fills[|fills| - 1];
      Traded(fills[..|fills| - 1], oid) + (if f.orderId == oid then f.quantity else 0.0)
  }

  function TradedNotional(fills: seq<Fill>, oid: OrderId): real {
    if |fills| == 0 then 0.0
    else
      var f := fills[|fills| - 1];
      TradedNotional(fills[..|fills| - 1], oid) + (if f.orderId == oid then Product(f.price, f.quantity) else 0.0)
  }

  /** An order shows the quantity and the average price of its own fills. */
  ghost predicate OrderExplained(o: Order, fills: seq<Fill>) {
    && o.filled == Traded(fills, o.orderId)
    && (if o.averagePrice.Some? then Product(o.averagePrice.value, o.filled)
         else 0.0) == TradedNotional(fills, o.orderId)
  }

  /** The fills fired so far account for every order and every position. */
  ghost predicate Explained(v: VenueState, fills: seq<Fill>) {
    && (forall k :: k in v.all ==> OrderExplained(v.all[k], fills))
    && (forall s :: v.PositionOf(s) == Fold(OnSymbol(fills, s)))
    && (forall s :: s in v.positions <==> exists i :: 0 <= i < |fills| && fills[i].symbol == s)
    && (forall i :: 0 <= i < |fills| ==>
          fills[i].orderId in v.all && fills[i].quantity > 0.0
          && v.all[fills[i].orderId].symbol == fills[i].symbol && v.all[fills[i].orderId].side == fills[i].side)
  }

  // ----- Each segment keeps them

  lemma {:induction false} ExposureFrame(a: map<OrderId, Order>, b: map<OrderId, Order>, symbol: Symbol, n: OrderId)
    requires forall k :: 1 <= k <= n ==> k in a && k in b
    requires forall k :: 1 <= k <= n ==>
      a[k].symbol == b[k].symbol && a[k].side == b[k].side && a[k].filled == b[k].filled
    ensures Exposure(a, symbol, n) == Exposure(b, symbol, n)
    decreases if n < 0 then 0 else n
  {
    if n > 0 {
      ExposureFrame(a, b, symbol, n - 1);
    }
  }

  lemma {:induction false} ExposureUpdate(all: map<OrderId, Order>, oid: OrderId, o: Order, symbol: Symbol, n: OrderId)
    requires forall k :: 1 <= k <= n ==> k in all
    requires 1 <= oid <= n && all[oid].symbol == o.symbol && all[oid].side == o.side
    ensures Exposure(all[oid := o], symbol, n)
            == Exposure(all, symbol, n)
               + (if o.symbol == symbol then Signed(o.side, o.filled) - Signed(o.side, all[oid].filled) else 0.0)
    decreases n
  {
    if oid == n {
      ExposureFrame(all[oid := o], all, symbol, n - 1);
    } else {
      ExposureUpdate(all, oid, o, symbol, n - 1);
    }
  }

  lemma {:induction false} AcceptKeeps(v: VenueState, req: OrderRequest, now: Time, fills: seq<Fill>)
    requires Consistent(v) && Explained(v, fills)
    requires req.quantity > 0.0 && PositivePrice(req.price)
    ensures Consistent(Accept(v, req, now)) && Explained(Accept(v, req, now), fills)
  {
    ConsistentOrders(v);
    hide Consistent, Explained, Accept;
    AcceptConsistent(v, req, now);
    AcceptExplained(v, req, now, fills);
  }

  lemma ConsistentOrders(v: VenueState)
    requires Consistent(v)
    ensures OrdersOk(v) && OpenOk(v)
  {
  }

  lemma {:induction false} AcceptConsistent(v: VenueState, req: OrderRequest, now: Time)
    requires Consistent(v) && req.quantity > 0.0 && PositivePrice(req.price)
    ensures Consistent(Accept(v, req, now))
  {
    hide OrdersOk, OpenOk, BooksOk, ExposureOk, Accept;
    AcceptOrders(v, req, now);
    AcceptExposure(v, req, now);
  }

  lemma AcceptOrders(v: VenueState, req: OrderRequest, now: Time)
    requires OrdersOk(v) && OpenOk(v) && BooksOk(v) && req.quantity > 0.0 && PositivePrice(req.price)
    ensures var w := Accept(v, req, now); OrdersOk(w) && OpenOk(w) && BooksOk(w)
  {
    hide WouldCross, PositiveBook;
    assert v.nextOid + 1 !in v.all;
  }

  lemma AcceptExposure(v: VenueState, req: OrderRequest, now: Time)
    requires OrdersOk(v) && ExposureOk(v)
    ensures ExposureOk(Accept(v, req, now))
  {
    hide WouldCross, OrderOk;
    var w := Accept(v, req, now);
    forall s
      ensures w.PositionOf(s).netQty == Exposure(w.all, s, w.nextOid)
    {
      assert v.PositionOf(s).netQty == Exposure(v.all, s, v.nextOid);
      ExposureFrame(v.all, w.all, s, v.nextOid);
    }
  }

  lemma {:induction false} AcceptExplained(v: VenueState, req: OrderRequest, now: Time, fills: seq<Fill>)
    requires OrdersOk(v) && Explained(v, fills)
    ensures Explained(Accept(v, req, now), fills)
  {
    hide WouldCross, OnSymbol, Fold, Traded, TradedNotional;
    var w := Accept(v, req, now);
    NothingTraded(v, fills, w.nextOid);
    forall k | k in w.all
      ensures OrderExplained(w.all[k], fills)
    {
      assert k in v.all ==> OrderExplained(v.all[k], fills);
    }
    forall s
      ensures w.PositionOf(s) == Fold(OnSymbol(fills, s))
    {
      assert v.PositionOf(s) == Fold(OnSymbol(fills, s));
    }
  }

  lemma {:induction false} NothingTraded(v: VenueState, fills: seq<Fill>, oid: OrderId)
    requires oid !in v.all
    requires forall i :: 0 <= i < |fills| ==> fills[i].orderId in v.all
    ensures Traded(fills, oid) == 0.0 && TradedNotional(fills, oid) == 0.0
  {
    if |fills| > 0 {
      NothingTraded(v, fills[..|fills| - 1], oid);
    }
  }

  /**
    What POST_ONLY prevents: on a known book such a request trades on submission exactly if it is a
    market request, is not priced to cross, and the other side of the book is not empty.
   */
  lemma {:induction false} PostOnlyTakesIff(v: VenueState, e: FillEngine, req: OrderRequest, now: Time, later: Time)
    requires Consistent(v) && e.Sane() && req.quantity > 0.0
    requires req.timeInForce == PostOnly && req.symbol in v.books
    ensures var book, w := v.books[req.symbol], Accept(v, req, now);
            Attempt(w, e, w.nextOid, book, later).Some?
            <==> req.kind == Market && !WouldCross(req, book) && |book.Opposite(req.side)| > 0
  {
    hide ExposureOk;
    var book, order := v.books[req.symbol], NewOrder(v, req, now);
    assert order.orderId !in v.open;
    FillsIffMarketable(e, order, book, later);
  }

  /** A request that trades on submission: it is accepted, and marketable on the book known then. */
  predicate TradesAtOnce(v: VenueState, req: OrderRequest) {
    && InitialStatus(v, req) == Acked && req.symbol in v.books
    && Marketable(NewOrder(v, req, 0), v.books[req.symbol])
  }

  lemma {:induction false} TradesAtOnceIff(v: VenueState, e: FillEngine, req: OrderRequest, now: Time, later: Time)
    requires Consistent(v) && e.Sane() && req.symbol in v.books
    ensures var w := Accept(v, req, now);
            Attempt(w, e, w.nextOid, v.books[req.symbol], later).Some? <==> TradesAtOnce(v, req)
  {
    hide ExposureOk, WouldCross;
    var order := NewOrder(v, req, now);
    assert order.orderId !in v.open;
    FillsIffMarketable(e, order, v.books[req.symbol], later);
  }

  lemma {:induction false} CancelKeeps(v: VenueState, oid: OrderId, now: Time, fills: seq<Fill>)
    requires Consistent(v) && Explained(v, fills)
    ensures Consistent(CancelOrder(v, oid, now)) && Explained(CancelOrder(v, oid, now), fills)
  {
    hide Consistent, Explained, CancelOrder;
    ConsistentOrders(v);
    CancelConsistent(v, oid, now);
    CancelExplained(v, oid, now, fills);
  }

  lemma {:induction false} CancelConsistent(v: VenueState, oid: OrderId, now: Time)
    requires Consistent(v)
    ensures Consistent(CancelOrder(v, oid, now))
  {
    var w := CancelOrder(v, oid, now);
    forall s
      ensures w.PositionOf(s).netQty == Exposure(w.all, s, w.nextOid)
    {
      assert v.PositionOf(s).netQty == Exposure(v.all, s, v.nextOid);
      ExposureFrame(v.all, w.all, s, v.nextOid);
    }
  }

  lemma {:induction false} CancelExplained(v: VenueState, oid: OrderId, now: Time, fills: seq<Fill>)
    requires OpenOk(v) && OrdersOk(v) && Explained(v, fills)
    ensures Explained(CancelOrder(v, oid, now), fills)
  {
    hide OnSymbol, Fold, Traded, TradedNotional;
    var w := CancelOrder(v, oid, now);
    forall k | k in w.all
      ensures OrderExplained(w.all[k], fills)
    {
      assert OrderExplained(v.all[k], fills);
    }
    forall s
      ensures w.PositionOf(s) == Fold(OnSymbol(fills, s))
    {
      assert v.PositionOf(s) == Fold(OnSymbol(fills, s));
    }
  }

  lemma {:induction false} StoreKeeps(v: VenueState, book: Book, fills: seq<Fill>)
    requires Consistent(v) && Explained(v, fills) && PositiveBook(book)
    ensures Consistent(StoreBook(v, book)) && Explained(StoreBook(v, book), fills)
  {
    var w := StoreBook(v, book);
    forall s
      ensures w.PositionOf(s).netQty == Exposure(w.all, s, w.nextOid)
      ensures w.PositionOf(s) == Fold(OnSymbol(fills, s))
    {
      assert v.PositionOf(s).netQty == Exposure(v.all, s, v.nextOid);
      assert v.PositionOf(s) == Fold(OnSymbol(fills, s));
    }
  }

  /** What every engine guarantees of a fill for a working order. */
  predicate FillFor(order: Order, fill: Fill) {
    && fill.orderId == order.orderId && fill.symbol == order.symbol && fill.side == order.side
    && 0.0 < fill.quantity <= order.quantity - order.filled
    && fill.price > 0.0
  }

  lemma {:induction false} FillKeeps(v: VenueState, oid: OrderId, fill: Fill, fills: seq<Fill>)
    requires Consistent(v) && Explained(v, fills)
    requires oid in v.open && FillFor(v.open[oid], fill)
    ensures var w := ApplyToOrder(v, v.open[oid], fill);
            Consistent(w) && Explained(w, fills + [fill])
  {
    hide NewAverage, ApplyFill;
    FillKeepsOrders(v, oid, fill);
    FillKeepsExposure(v, oid, fill);
    FillExplainsOrders(v, oid, fill, fills);
    FillExplainsPositions(v, oid, fill, fills);
  }

  lemma FillKeepsOrders(v: VenueState, oid: OrderId, fill: Fill)
    requires Consistent(v) && oid in v.open && FillFor(v.open[oid], fill)
    ensures var w := ApplyToOrder(v, v.open[oid], fill);
            OrdersOk(w) && OpenOk(w) && BooksOk(w)
  {
    hide NewAverage, ApplyFill, Exposure;
    var w := ApplyToOrder(v, v.open[oid], fill);
    assert OrderOk(v.all[oid]);
    assert OrderOk(w.all[oid]);
  }

  lemma {:induction false} FillKeepsExposure(v: VenueState, oid: OrderId, fill: Fill)
    requires Consistent(v) && oid in v.open && FillFor(v.open[oid], fill)
    ensures ExposureOk(ApplyToOrder(v, v.open[oid], fill))
  {
    hide NewAverage, ApplyFill, Exposure;
    var w := ApplyToOrder(v, v.open[oid], fill);
    forall s
      ensures w.PositionOf(s).netQty == Exposure(w.all, s, w.nextOid)
    {
      assert v.PositionOf(s).netQty == Exposure(v.all, s, v.nextOid);
      ExposureUpdate(v.all, oid, w.all[oid], s, v.nextOid);
      ExactFill(v.PositionOf(fill.symbol), fill, 0.0);
    }
  }

  lemma {:induction false} FillExplainsOrders(v: VenueState, oid: OrderId, fill: Fill, fills: seq<Fill>)
    requires Consistent(v) && Explained(v, fills) && oid in v.open && FillFor(v.open[oid], fill)
    ensures var w := ApplyToOrder(v, v.open[oid], fill);
            forall k :: k in w.all ==> OrderExplained(w.all[k], fills + [fill])
  {
    hide ApplyFill, Product, Quotient;
    var w := ApplyToOrder(v, v.open[oid], fill);
    var more := fills + [fill];
    assert more[..|more| - 1] == fills;
    forall k | k in w.all
      ensures OrderExplained(w.all[k], more)
    {
      assert OrderExplained(v.all[k], fills);
      if k == oid {
        AverageOfFills(v.all[k], fill);
      }
    }
  }

  lemma AverageOfFills(order: Order, fill: Fill)
    requires OrderOk(order) && fill.quantity > 0.0
    ensures var o := Updated(order, fill);
            Product(o.averagePrice.value, o.filled)
            == (if order.averagePrice.Some? then Product(order.averagePrice.value, order.filled) else 0.0)
               + Product(fill.price, fill.quantity)
  {
    hide Product;
    if order.averagePrice.Some? {
      QuotientProduct(Product(order.averagePrice.value, order.filled) + Product(fill.price, fill.quantity),
                      order.filled + fill.quantity);
    }
  }

  lemma {:induction false} FillExplainsPositions(v: VenueState, oid: OrderId, fill: Fill, fills: seq<Fill>)
    requires Consistent(v) && Explained(v, fills) && oid in v.open && FillFor(v.open[oid], fill)
    ensures var w := ApplyToOrder(v, v.open[oid], fill);
            var more := fills + [fill];
            && (forall s :: w.PositionOf(s) == Fold(OnSymbol(more, s)))
            && (forall s :: s in w.positions <==> exists i :: 0 <= i < |more| && more[i].symbol == s)
            && (forall i :: 0 <= i < |more| ==>
                  more[i].orderId in w.all && more[i].quantity > 0.0
                  && w.all[more[i].orderId].symbol == more[i].symbol && w.all[more[i].orderId].side == more[i].side)
  {
    hide ApplyFill, NewAverage, Exposure;
    var w := ApplyToOrder(v, v.open[oid], fill);
    var more := fills + [fill];
    assert more[..|more| - 1] == fills && more[|more| - 1] == fill;
    forall s
      ensures w.PositionOf(s) == Fold(OnSymbol(more, s))
    {
      assert v.PositionOf(s) == Fold(OnSymbol(fills, s));
      if s == fill.symbol {
        var folded := OnSymbol(more, s);
        assert folded[..|folded| - 1] == OnSymbol(fills, s);
      } else {
        assert OnSymbol(more, s) == OnSymbol(fills, s);
      }
    }
    forall s
      ensures s in w.positions <==> exists i :: 0 <= i < |more| && more[i].symbol == s
    {
      if s in v.positions {
        var i :| 0 <= i < |fills| && fills[i].symbol == s;
        assert more[i].symbol == s;
      }
      if s == fill.symbol {
        assert more[|fills|].symbol == s;
      }
      if i :| 0 <= i < |more| && more[i].symbol == s && s != fill.symbol {
        assert fills[i].symbol == s;
      }
    }
  }

  lemma {:induction false} TryFillKeeps(
      v: VenueState, e: FillEngine, oid: OrderId, book: Book, now: Time, fills: seq<Fill>)
    requires e.Sane() && PositiveBook(book) && Consistent(v) && Explained(v, fills)
    ensures var w := TryFillOrder(v, e, oid, book, now);
            && Consistent(w)
            && Explained(w, Appended(fills, Attempt(v, e, oid, book, now)))
  {
    if Attempt(v, e, oid, book, now).Some? {
      assert OrderOk(v.all[oid]);
      FillIsSane(e, v.open[oid], book, now);
      FillKeeps(v, oid, Attempt(v, e, oid, book, now).value, fills);
    }
  }

  function Appended(fills: seq<Fill>, fill: Option<Fill>): seq<Fill> {
    if fill.Some? then fills + [fill.value] else fills
  }

  // ----- Arbitrary interleavings

  /** An operation waiting inside a callback, with what it will do when it goes on. */
  datatype Task =
    | FillOnAck(oid: OrderId, symbol: Symbol)
    | FillOnBook(pending: seq<OrderId>, book: Book)

  /** One uninterrupted segment: an operation starting, or a waiting one going on. */
  datatype Action =
    | Place(request: OrderRequest, now: Time)
    | Cancel(oid: OrderId, now: Time)
    | BookArrives(book: Book)
    | Resume(index: int, now: Time)

  /** The venue, its suspended operations, and the fills it has fired. */
  datatype Exchange = Exchange(venue: VenueState, tasks: seq<Task>, fills: seq<Fill>)

  const EMPTY_EXCHANGE := Exchange(EMPTY_VENUE, [], [])

  predicate ActionOk(a: Action) {
    match a
    case Place(req, _) => req.quantity > 0.0 && PositivePrice(req.price)
    case BookArrives(book) => PositiveBook(book)
    case _ => true
  }

  function FillStep(x: Exchange, e: FillEngine, oid: OrderId, book: Book, now: Time): Exchange {
    x.(venue := TryFillOrder(x.venue, e, oid, book, now),
       fills := Appended(x.fills, Attempt(x.venue, e, oid, book, now)))
  }

  function Step(x: Exchange, e: FillEngine, a: Action): Exchange {
    match a
    case Place(req, now) =>
      var w := Accept(x.venue, req, now);
      x.(venue := w,
         tasks :=
           if InitialStatus(x.venue, req) == Acked then x.tasks + [FillOnAck(w.nextOid, req.symbol)] else x.tasks)
    case Cancel(oid, now) => x.(venue := CancelOrder(x.venue, oid, now))
    case BookArrives(book) =>
      x.(venue := StoreBook(x.venue, book),
         tasks := x.tasks + [FillOnBook(IdsOn(x.venue.open, Some(book.symbol)), book)])
    case Resume(i, now) => if 0 <= i < |x.tasks| then Continue(x, e, i, now) else x
  }

  function Continue(x: Exchange, e: FillEngine, i: int, now: Time): Exchange
    requires 0 <= i < |x.tasks|
  {
    var others := x.tasks[..i] + x.tasks[i + 1..];
    match x.tasks[i]
    case FillOnAck(oid, symbol) =>
      if symbol in x.venue.books then FillStep(x, e, oid, x.venue.books[symbol], now).(tasks := others)
      else x.(tasks := others)
    case FillOnBook(pending, book) =>
      if |pending| == 0 then x.(tasks := others)
      else FillStep(x, e, pending[0], book, now).(tasks := x.tasks[i := FillOnBook(pending[1..], book)])
  }

  function Exec(x: Exchange, e: FillEngine, actions: seq<Action>): Exchange {
    if |actions| == 0 then x else Step(Exec(x, e, actions[..|actions| - 1]), e, actions[|actions| - 1])
  }

  predicate TasksOk(tasks: seq<Task>) {
    forall i :: 0 <= i < |tasks| && tasks[i].FillOnBook? ==> PositiveBook(tasks[i].book)
  }

  ghost predicate Safe(x: Exchange) {
    Consistent(x.venue) && Explained(x.venue, x.fills) && TasksOk(x.tasks)
  }

  lemma {:induction false} StepKeepsSafe(x: Exchange, e: FillEngine, a: Action)
    requires e.Sane() && ActionOk(a) && Safe(x)
    ensures Safe(Step(x, e, a))
  {
    hide Consistent, Explained, TryFillOrder, Attempt, Accept, CancelOrder;
    match a
    case Place(req, now) => AcceptKeeps(x.venue, req, now, x.fills);
    case Cancel(oid, now) => CancelKeeps(x.venue, oid, now, x.fills);
    case BookArrives(book) => StoreKeeps(x.venue, book, x.fills);
    case Resume(i, now) =>
      if 0 <= i < |x.tasks| {
        match x.tasks[i]
        case FillOnAck(oid, symbol) =>
          if symbol in x.venue.books {
            StoredBookPositive(x.venue, symbol);
            TryFillKeeps(x.venue, e, oid, x.venue.books[symbol], now, x.fills);
          }
        case FillOnBook(pending, book) =>
          if |pending| > 0 {
            TryFillKeeps(x.venue, e, pending[0], book, now, x.fills);
          }
      }
  }

  lemma StoredBookPositive(v: VenueState, symbol: Symbol)
    requires Consistent(v) && symbol in v.books
    ensures PositiveBook(v.books[symbol])
  {
  }

  /** Venue safety: whatever is called and however the segments interleave. */
  lemma {:induction false} VenueSafety(e: FillEngine, actions: seq<Action>)
    requires e.Sane() && forall i :: 0 <= i < |actions| ==> ActionOk(actions[i])
    ensures Safe(Exec(EMPTY_EXCHANGE, e, actions))
  {
    if |actions| == 0 {
      EmptyIsSafe();
    } else {
      VenueSafety(e, actions[..|actions| - 1]);
      StepKeepsSafe(Exec(EMPTY_EXCHANGE, e, actions[..|actions| - 1]), e, actions[|actions| - 1]);
    }
  }

  lemma EmptyIsSafe()
    ensures Safe(EMPTY_EXCHANGE)
  {
    forall s
      ensures EMPTY_VENUE.PositionOf(s) == Fold(OnSymbol([], s))
      ensures EMPTY_VENUE.PositionOf(s).netQty == Exposure(map[], s, 0)
    {
    }
  }

  // ----- How orders evolve

  /** `b` is a later version of `a`: what was asked never changes, and a terminal order not at all. */
  predicate Evolves(a: Order, b: Order) {
    && a.filled <= b.filled
    && (IsTerminal(a.status) ==> b == a)
    && b == a.(filled := b.filled, averagePrice := b.averagePrice, status := b.status, updatedAt := b.updatedAt)
  }

  ghost predicate Extends(x: Exchange, y: Exchange) {
    && |x.fills| <= |y.fills| && y.fills[..|x.fills|] == x.fills
    && (forall k :: k in x.venue.all ==> k in y.venue.all && Evolves(x.venue.all[k], y.venue.all[k]))
    && (forall i :: |x.fills| <= i < |y.fills| ==>
          var k := y.fills[i].orderId;
          k in x.venue.all ==> !IsTerminal(x.venue.all[k].status))
  }

  lemma {:induction false} StepExtends(x: Exchange, e: FillEngine, a: Action)
    requires e.Sane() && ActionOk(a) && Safe(x)
    ensures Extends(x, Step(x, e, a))
  {
    hide Safe, Extends, Accept, CancelOrder, StoreBook, FillStep, IdsOn;
    match a
    case Place(req, now) => PlaceExtends(x, req, now);
    case Cancel(oid, now) => CancelExtends(x, oid, now);
    case BookArrives(book) => StoreExtends(x, book);
    case Resume(i, now) =>
      SameExtends(x);
      if 0 <= i < |x.tasks| {
        TaskBook(x, i);
        match x.tasks[i]
        case FillOnAck(oid, symbol) =>
          if symbol in x.venue.books {
            FillStepExtends(x, e, oid, x.venue.books[symbol], now);
            ExtendsWhateverWaits(x, FillStep(x, e, oid, x.venue.books[symbol], now), Step(x, e, a));
          } else {
            ExtendsWhateverWaits(x, x, Step(x, e, a));
          }
        case FillOnBook(pending, book) =>
          if |pending| > 0 {
            FillStepExtends(x, e, pending[0], book, now);
            ExtendsWhateverWaits(x, FillStep(x, e, pending[0], book, now), Step(x, e, a));
          } else {
            ExtendsWhateverWaits(x, x, Step(x, e, a));
          }
      }
  }

  lemma PlaceExtends(x: Exchange, req: OrderRequest, now: Time)
    requires Safe(x)
    ensures forall tasks :: Extends(x, Exchange(Accept(x.venue, req, now), tasks, x.fills))
  {
    hide WouldCross, Explained, ExposureOk, OrderOk;
  }

  lemma CancelExtends(x: Exchange, oid: OrderId, now: Time)
    requires Safe(x)
    ensures Extends(x, x.(venue := CancelOrder(x.venue, oid, now)))
  {
    hide Explained, ExposureOk, OrderOk;
  }

  lemma StoreExtends(x: Exchange, book: Book)
    ensures forall tasks :: Extends(x, Exchange(StoreBook(x.venue, book), tasks, x.fills))
  {
  }

  lemma SameExtends(x: Exchange)
    ensures Extends(x, x)
  {
  }

  lemma ExtendsWhateverWaits(x: Exchange, y: Exchange, z: Exchange)
    requires Extends(x, y) && z == y.(tasks := z.tasks)
    ensures Extends(x, z)
  {
  }

  lemma TaskBook(x: Exchange, i: int)
    requires Safe(x) && 0 <= i < |x.tasks|
    ensures x.tasks[i].FillOnBook? ==> PositiveBook(x.tasks[i].book)
    ensures forall s :: s in x.venue.books ==> PositiveBook(x.venue.books[s])
  {
  }

  lemma {:induction false} FillStepExtends(x: Exchange, e: FillEngine, oid: OrderId, book: Book, now: Time)
    requires e.Sane() && PositiveBook(book) && Safe(x)
    ensures Extends(x, FillStep(x, e, oid, book, now))
  {
    hide NewAverage, ApplyFill, Exposure, Traded, TradedNotional, OrderExplained, OnSymbol, Fold;
    if Attempt(x.venue, e, oid, book, now).Some? {
      assert OrderOk(x.venue.all[oid]);
      FillIsSane(e, x.venue.open[oid], book, now);
    }
  }

  /**
    From any safe state on, over any further interleaving: fills are only added, orders only
    evolve, and an order that was terminal (cancelled, say) never changes nor fills again.
   */
  lemma {:induction false} RunsExtend(x: Exchange, e: FillEngine, actions: seq<Action>)
    requires e.Sane() && Safe(x) && forall i :: 0 <= i < |actions| ==> ActionOk(actions[i])
    ensures Safe(Exec(x, e, actions)) && Extends(x, Exec(x, e, actions))
  {
    if |actions| > 0 {
      var y := Exec(x, e, actions[..|actions| - 1]);
      RunsExtend(x, e, actions[..|actions| - 1]);
      StepKeepsSafe(y, e, actions[|actions| - 1]);
      StepExtends(y, e, actions[|actions| - 1]);
      ExtendsTransitive(x, y, Exec(x, e, actions));
    }
  }

  lemma ExtendsTransitive(x: Exchange, y: Exchange, z: Exchange)
    requires Extends(x, y) && Extends(y, z)
    ensures Extends(x, z)
  {
    assert z.fills[..|x.fills|] == z.fills[..|y.fills|][..|x.fills|];
    forall i | |x.fills| <= i < |z.fills| && z.fills[i].orderId in x.venue.all
      ensures !IsTerminal(x.venue.all[z.fills[i].orderId].status)
    {
      var k := z.fills[i].orderId;
      assert Evolves(x.venue.all[k], y.venue.all[k]);
      if i < |y.fills| {
        assert y.fills[i] == z.fills[..|y.fills|][i];
      }
    }
  }

  // ----- A POST_ONLY order that takes

  /** A book arrives, a POST_ONLY market order is placed, and its placing goes on: it trades, as taker. */
  lemma {:induction false} PostOnlyMarketTrades()
    ensures var e := BookAware(DEFAULT_MAKER_FEE, DEFAULT_TAKER_FEE, "USDT");
            var book := Book("BTC", [], [Level(100.0, 5.0)], 1, 0);
            var req := OrderRequest("BTC", Buy, Market, 1.0, "a", None, PostOnly, false);
            var actions := [BookArrives(book), Place(req, 1), Resume(1, 2)];
            var x := Exec(EMPTY_EXCHANGE, e, actions);
            && (forall i :: 0 <= i < |actions| ==> ActionOk(actions[i]))
            && |x.fills| == 1 && x.fills[0].quantity == 1.0 && !x.fills[0].isMaker
            && 1 in x.venue.all && x.venue.all[1].status == Filled
  {
    hide Exec, Walk, Depth;
    var e := BookAware(DEFAULT_MAKER_FEE, DEFAULT_TAKER_FEE, "USDT");
    var book := Book("BTC", [], [Level(100.0, 5.0)], 1, 0);
    var req := OrderRequest("BTC", Buy, Market, 1.0, "a", None, PostOnly, false);
    OneLevel(book.asks);
    ExecThree(EMPTY_EXCHANGE, e, BookArrives(book), Place(req, 1), Resume(1, 2));
    FirstOrderTakes(e, book, req);
  }

  lemma OneLevel(levels: seq<Level>)
    requires |levels| == 1
    ensures Depth(levels) == levels[0].quantity
  {
  }

  lemma FirstOrderTakes(e: FillEngine, book: Book, req: OrderRequest)
    requires e.Sane() && PositiveBook(book) && book.symbol == req.symbol
    requires req.kind == Market && req.price.None? && 0.0 < req.quantity <= Depth(book.Opposite(req.side))
    requires |book.Opposite(req.side)| > 0
    ensures var x := Step(Step(Step(EMPTY_EXCHANGE, e, BookArrives(book)), e, Place(req, 1)), e, Resume(1, 2));
            && |x.fills| == 1 && x.fills[0].quantity == req.quantity && !x.fills[0].isMaker
            && 1 in x.venue.all && x.venue.all[1].status == Filled
  {
    hide Updated, ApplyFill, Walk, Depth, Fee;
    var quoted := Exchange(StoreBook(EMPTY_VENUE, book), [FillOnBook([], book)], []);
    assert IdsOn(map[], Some(book.symbol)) == [];
    assert Step(EMPTY_EXCHANGE, e, BookArrives(book)) == quoted;
    var order := NewOrder(quoted.venue, req, 1);
    var placed := Exchange(Accept(quoted.venue, req, 1), [FillOnBook([], book), FillOnAck(1, req.symbol)], []);
    assert Step(quoted, e, Place(req, 1)) == placed;
    FillsIffMarketable(e, order, book, 2);
    TakesWhole(e, order, book);
    var fill := e.TryFill(order, book, 2).value;
    FilledCompletely(order, fill);
    assert Step(placed, e, Resume(1, 2)).fills == [fill];
  }

  lemma TakesWhole(e: FillEngine, order: Order, book: Book)
    requires e.Sane() && PositiveBook(book) && Marketable(order, book) && order.kind == Market
    requires order.quantity - order.filled <= Depth(book.Opposite(order.side))
    ensures var fill := e.TryFill(order, book, 2);
            fill.Some? && fill.value.quantity == order.quantity - order.filled && !fill.value.isMaker
  {
    hide Walk, Depth, Fee;
    FillsIffMarketable(e, order, book, 2);
  }

  lemma ExecThree(x: Exchange, e: FillEngine, a: Action, b: Action, c: Action)
    ensures Exec(x, e, [a, b, c]) == Step(Step(Step(x, e, a), e, b), e, c)
  {
    hide Step;
    assert [a, b, c][..2] == [a, b] && [a, b][..1] == [a] && [a][..0] == [];
    assert Exec(x, e, [a]) == Step(x, e, a);
    assert Exec(x, e, [a, b]) == Step(Step(x, e, a), e, b);
  }

  lemma FilledCompletely(order: Order, fill: Fill)
    requires order.filled + fill.quantity >= order.quantity
    ensures Updated(order, fill).status == Filled && Updated(order, fill).orderId == order.orderId
  {
    hide NewAverage;
  }
}
