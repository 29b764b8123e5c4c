/**
  What a submit, a book and a fill leave on the desk, from the state before to the state after,
  told in levels, prices and quantities.
 */
module DeskEffects {
  import opened Domain
  import opened FillEngines
  import opened Venue
  import opened VenueEffects
  import opened Journal
  import opened Desk
  import OrderTracking

  /** On the desk an attempt is the venue's attempt, stamped with the next reading. */
  lemma {:induction false} DeskAttempts(env: Env, d: DeskState, oid: OrderId, book: Book)
    ensures var e := TryFill(env, d, oid, book);
            && e.venue == TryFillOrder(d.venue, env.engine, oid, book, env.clock(d.ticks))
            && e.ticks == d.ticks + (if oid in d.venue.open then 1 else 0)
  {
    hide ApplyToOrder, Updated;
  }

  // ----- Placing an order

  /**
    A request placed on the desk.  The order carries the request.  It is rejected exactly if it is POST_ONLY,
    priced, and the first level of the other side of a known book is at or through its price; otherwise
    it has taken what the known book gives it and works on with the rest.  No other order is touched.
   */
  lemma {:induction false} PlacedOnDesk(env: Env, d: DeskState, req: OrderRequest)
    requires Good(d) && env.engine.Sane() && req.quantity > 0.0 && PositivePrice(req.price)
    ensures var e, oid := PlaceOrder(env, d, req), d.venue.nextOid + 1;
            && oid !in d.venue.all && oid in e.venue.all && e.venue.nextOid == oid
            && e.venue.books == d.venue.books
            && (forall k :: k != oid ==> Unchanged(d.venue, e.venue, k))
            && var o := e.venue.all[oid];
            && o.orderId == oid && o.clientOrderId == req.clientOrderId && o.symbol == req.symbol && o.side == req.side
            && o.kind == req.kind && o.quantity == req.quantity && o.price == req.price
            && o.timeInForce == req.timeInForce && o.reduceOnly == req.reduceOnly
            && o.createdAt == env.clock(d.ticks)
            && (o.status == Rejected
                <==> && req.timeInForce == PostOnly && req.price.Some? && req.symbol in d.venue.books
                     && (req.side == Buy ==>
                           && |d.venue.books[req.symbol].asks| > 0
                           && d.venue.books[req.symbol].asks[0].price <= req.price.value)
                     && (req.side == Sell ==>
                           && |d.venue.books[req.symbol].bids| > 0
                           && d.venue.books[req.symbol].bids[0].price >= req.price.value))
            && o.filled == (if o.status == Rejected || req.symbol !in d.venue.books then 0.0
                            else Takes(env.engine, o.(filled := 0.0), d.venue.books[req.symbol]))
            && (o.status != Rejected ==>
                  o.status == if o.filled == 0.0 then Acked
                              else if o.filled < req.quantity then PartiallyFilled else Filled)
            && (if o.status == Rejected || o.status == Filled then oid !in e.venue.open
                else oid in e.venue.open && e.venue.open[oid] == o)
  {
    hide Good, Accepted, TryFill, Tried, Takes, Unchanged, Consistent;
    var accepted, oid := Accepted(env, d, req), d.venue.nextOid + 1;
    AcceptedIsPlaced(env, d, req);
    AcceptedKeeps(env, d, req);
    GoodVenue(d);
    GoodVenue(accepted);
    Placed(d.venue, req, env.clock(d.ticks));
    AckedIff(d.venue, req, env.clock(d.ticks));
    if InitialStatus(d.venue, req) == Acked && req.symbol in accepted.venue.books {
      var book, later := accepted.venue.books[req.symbol], env.clock(accepted.ticks);
      DeskAttempts(env, accepted, oid, book);
      AttemptTries(accepted.venue, env.engine, oid, book, later);
      TriedFresh(env.engine, accepted.venue, PlaceOrder(env, d, req).venue, oid, book, later);
      forall k | k != oid
        ensures Unchanged(d.venue, PlaceOrder(env, d, req).venue, k)
      {
        UnchangedOn(d.venue, accepted.venue, PlaceOrder(env, d, req).venue, k);
      }
    }
  }

  lemma UnchangedOn(v: VenueState, w: VenueState, x: VenueState, k: OrderId)
    requires Unchanged(v, w, k) && Unchanged(w, x, k)
    ensures Unchanged(v, x, k)
  {
  }

  lemma TriedFresh(e: FillEngine, v: VenueState, w: VenueState, oid: OrderId, book: Book, now: Time)
    requires e.Sane() && PositiveBook(book) && oid in v.open && oid in v.all && v.all[oid] == v.open[oid]
    requires v.open[oid].filled == 0.0 && v.open[oid].quantity > 0.0 && v.open[oid].status == Acked
    requires Tried(e, v, w, oid, book, now)
    ensures oid in w.all
    ensures var o := w.all[oid];
            && o == v.open[oid].(filled := o.filled, status := o.status, updatedAt := o.updatedAt,
                                 averagePrice := o.averagePrice)
            && o.filled == Takes(e, o.(filled := 0.0), book)
            && o.status == (if o.filled == 0.0 then Acked
                            else if o.filled < o.quantity then PartiallyFilled else Filled)
            && (if o.status == Filled then oid !in w.open else oid in w.open && w.open[oid] == o)
  {
    hide Takes;
    TakesAtMostLeft(e, v.open[oid], book);
    SameTerms(e, v.open[oid], w.all[oid].(filled := 0.0), book);
  }

  /** What an order takes depends on its terms and what is left, not on its history. */
  lemma SameTerms(e: FillEngine, a: Order, b: Order, book: Book)
    requires a.symbol == b.symbol && a.side == b.side && a.kind == b.kind
    requires a.quantity == b.quantity && a.filled == b.filled && a.price == b.price
    ensures Takes(e, a, book) == Takes(e, b, book)
  {
    hide Depth;
  }

  /**
    Which requests trade at once: one that is not POST_ONLY has something filled on return exactly if its
    symbol has a book whose other side is not empty, and it is a market order, or a limit order whose
    price reaches the first level there.
   */
  lemma {:induction false} FilledOnPlacingIff(env: Env, d: DeskState, req: OrderRequest)
    requires Good(d) && env.engine.Sane() && req.quantity > 0.0 && PositivePrice(req.price)
    requires req.timeInForce != PostOnly
    ensures var e, oid := PlaceOrder(env, d, req), d.venue.nextOid + 1;
            && oid in e.venue.all
            && (e.venue.all[oid].filled > 0.0
                <==> && req.symbol in d.venue.books
                     && var book := d.venue.books[req.symbol];
                     if req.side == Buy then
                       && |book.asks| > 0
                       && (req.kind == Market
                           || (req.kind == Limit && req.price.Some? && req.price.value >= book.asks[0].price))
                     else
                       && |book.bids| > 0
                       && (req.kind == Market
                           || (req.kind == Limit && req.price.Some? && req.price.value <= book.bids[0].price)))
  {
    hide Good, PlaceOrder, Unchanged, Depth;
    PlacedOnDesk(env, d, req);
    GoodVenue(d);
    if req.symbol in d.venue.books {
      var book := d.venue.books[req.symbol];
      WalkFills(if req.side == Buy then book.asks else book.bids, req.quantity);
    }
  }

  lemma AcceptedIsPlaced(env: Env, d: DeskState, req: OrderRequest)
    ensures Accepted(env, d, req).venue == Accept(d.venue, req, env.clock(d.ticks))
  {
    hide WouldCross;
  }

  lemma AckedIff(v: VenueState, req: OrderRequest, now: Time)
    ensures var w := Accept(v, req, now);
            w.nextOid in w.all && (InitialStatus(v, req) == Acked <==> w.all[w.nextOid].status != Rejected)
  {
    hide WouldCross;
  }

  lemma GoodVenue(d: DeskState)
    requires Good(d)
    ensures Consistent(d.venue)
    ensures forall s :: s in d.venue.books ==> PositiveBook(d.venue.books[s]) && d.venue.books[s].symbol == s
    ensures forall k :: k in d.venue.open ==> d.venue.open[k].filled < d.venue.open[k].quantity
    ensures forall k :: k in d.venue.open ==> k in d.venue.all && d.venue.open[k] == d.venue.all[k]
  {
    hide Explained;
    forall k | k in d.venue.open
      ensures d.venue.open[k].filled < d.venue.open[k].quantity
      ensures k in d.venue.all && d.venue.open[k] == d.venue.all[k]
    {
      OpenIsAll(d.venue, k);
    }
  }


  // ----- A book arrives

  /**
    A book that arrives is tried on every order that works on its symbol: each has what the book gives it
    more filled, at some reading the desk took meanwhile, and works on with the rest, if any.  No other order
    is touched, and the book is the one known from then on.
   */
  lemma {:induction false} BookTriesOrders(env: Env, d: DeskState, book: Book)
    requires Good(d) && env.engine.Sane() && PositiveBook(book)
    ensures var e := OnOrderbook(env, d, book);
            && e.venue.books == d.venue.books[book.symbol := book]
            && e.venue.nextOid == d.venue.nextOid
            && (forall k :: k in d.venue.open && d.venue.open[k].symbol == book.symbol ==>
                  exists n :: d.ticks <= n < e.ticks && Tried(env.engine, d.venue, e.venue, k, book, env.clock(n)))
            && (forall k :: !(k in d.venue.open && d.venue.open[k].symbol == book.symbol) ==>
                  Unchanged(d.venue, e.venue, k))
  {
    hide Good, TryFillEach, Tried, Unchanged, IdsOn;
    var stored, ids := d.(venue := StoreBook(d.venue, book)), IdsOn(d.venue.open, Some(book.symbol));
    var e := OnOrderbook(env, d, book);
    StoredKeeps(d, book);
    ListedInOrder(d.venue.open, Some(book.symbol));
    EachTried(env, stored, ids, book);
    forall k | k in d.venue.open && d.venue.open[k].symbol == book.symbol
      ensures exists n :: d.ticks <= n < e.ticks && Tried(env.engine, d.venue, e.venue, k, book, env.clock(n))
    {
      var i :| 0 <= i < |ids| && ids[i] == k;
      var n := d.ticks + i;
      assert Tried(env.engine, stored.venue, e.venue, ids[i], book, env.clock(d.ticks + i));
      TriedAnyBooks(env.engine, stored.venue, d.venue, e.venue, k, book, env.clock(n));
    }
    forall k | k !in ids
      ensures Unchanged(d.venue, e.venue, k)
    {
      UnchangedAnyBooks(stored.venue, d.venue, e.venue, k);
    }
  }

  lemma TriedAnyBooks(
      e: FillEngine, v: VenueState, v': VenueState, w: VenueState, k: OrderId, book: Book, now: Time)
    requires k in v.open && v'.open == v.open && v'.all == v.all && Tried(e, v, w, k, book, now)
    ensures Tried(e, v', w, k, book, now)
  {
    hide Takes;
  }

  lemma UnchangedAnyBooks(v: VenueState, v': VenueState, w: VenueState, k: OrderId)
    requires v'.open == v.open && v'.all == v.all && Unchanged(v, w, k)
    ensures Unchanged(v', w, k)
  {
  }

  /** Orders listed once each are tried in turn, each at its own reading. */
  lemma {:induction false} EachTried(env: Env, d: DeskState, ids: seq<OrderId>, book: Book)
    requires Good(d) && env.engine.Sane() && PositiveBook(book)
    requires forall i :: 0 <= i < |ids| ==> ids[i] in d.venue.open
    requires forall i, j :: 0 <= i < j < |ids| ==> ids[i] < ids[j]
    ensures var e := TryFillEach(env, d, ids, book);
            && e.ticks == d.ticks + |ids| && e.venue.books == d.venue.books && e.venue.nextOid == d.venue.nextOid
            && (forall i :: 0 <= i < |ids| ==>
                  Tried(env.engine, d.venue, e.venue, ids[i], book, env.clock(d.ticks + i)))
            && (forall k :: k !in ids ==> Unchanged(d.venue, e.venue, k))
  {
    hide Good, TryFill, Tried, Unchanged;
    if |ids| == 0 {
      forall k
        ensures Unchanged(d.venue, d.venue, k)
      {
        UnchangedSame(d.venue, k);
      }
    } else {
      var last, before := ids[|ids| - 1], TryFillEach(env, d, ids[..|ids| - 1], book);
      EachTried(env, d, ids[..|ids| - 1], book);
      TryFillEachKeeps(env, d, ids[..|ids| - 1], book);
      GoodVenue(before);
      DeskAttempts(env, before, last, book);
      AttemptTries(before.venue, env.engine, last, book, env.clock(before.ticks));
      var e := TryFillEach(env, d, ids, book);
      assert Unchanged(d.venue, before.venue, last);
      StillOpen(d.venue, before.venue, last);
      forall i | 0 <= i < |ids|
        ensures Tried(env.engine, d.venue, e.venue, ids[i], book, env.clock(d.ticks + i))
      {
        if i < |ids| - 1 {
          assert ids[..|ids| - 1][i] == ids[i];
          TriedThenUnchanged(env.engine, d.venue, before.venue, e.venue, ids[i], book, env.clock(d.ticks + i));
        } else {
          UnchangedThenTried(env.engine, d.venue, before.venue, e.venue, last, book, env.clock(d.ticks + i));
        }
      }
      forall k | k !in ids
        ensures Unchanged(d.venue, e.venue, k)
      {
        UnchangedOn(d.venue, before.venue, e.venue, k);
      }
    }
  }

  lemma UnchangedSame(v: VenueState, k: OrderId)
    ensures Unchanged(v, v, k)
  {
  }

  lemma StillOpen(v: VenueState, w: VenueState, k: OrderId)
    requires Unchanged(v, w, k) && k in v.open
    ensures k in w.open && w.open[k] == v.open[k]
  {
  }

  lemma TriedThenUnchanged(
      e: FillEngine, v: VenueState, w: VenueState, x: VenueState, k: OrderId, book: Book, now: Time)
    requires k in v.open && Tried(e, v, w, k, book, now) && Unchanged(w, x, k)
    ensures Tried(e, v, x, k, book, now)
  {
    hide Takes;
  }

  lemma UnchangedThenTried(
      e: FillEngine, v: VenueState, w: VenueState, x: VenueState, k: OrderId, book: Book, now: Time)
    requires k in v.open && k in w.open && Unchanged(v, w, k) && Tried(e, w, x, k, book, now)
    ensures Tried(e, v, x, k, book, now)
  {
    hide Takes;
  }

  /**
    So no order stays behind a book it could trade on: a working limit order whose price the book's other
    side reaches is FILLED, and a working market order has the smaller of what was left and the depth more
    filled, or all of it with the engine that ignores sizes.
   */
  lemma {:induction false} BookFillsMarketable(env: Env, d: DeskState, book: Book, k: OrderId)
    requires Good(d) && env.engine.Sane() && PositiveBook(book)
    requires k in d.venue.open && d.venue.open[k].symbol == book.symbol
    ensures var e, o := OnOrderbook(env, d, book), d.venue.open[k];
            var offers := if o.side == Buy then book.asks else book.bids;
            && k in e.venue.all
            && (|offers| > 0 && o.kind == Limit && o.price.Some?
                && (if o.side == Buy then offers[0].price <= o.price.value else offers[0].price >= o.price.value) ==>
                  && e.venue.all[k].status == Filled && e.venue.all[k].filled == o.quantity
                  && k !in e.venue.open)
            && (|offers| > 0 && o.kind == Market ==>
                  && e.venue.all[k].filled > o.filled
                  && e.venue.all[k].filled == (if env.engine.Immediate? then o.quantity
                                               else o.filled + Min(o.quantity - o.filled, Depth(offers)))
                  && (e.venue.all[k].status == Filled <==> e.venue.all[k].filled == o.quantity)
                  && (k in e.venue.open <==> e.venue.all[k].filled < o.quantity))
            && (|offers| == 0 ==> Unchanged(d.venue, e.venue, k))
  {
    hide Good, OnOrderbook, Depth;
    BookTriesOrders(env, d, book);
    GoodVenue(d);
    var e := OnOrderbook(env, d, book);
    var n :| d.ticks <= n < e.ticks && Tried(env.engine, d.venue, e.venue, k, book, env.clock(n));
    TakesAtMostLeft(env.engine, d.venue.open[k], book);
    WalkFills(if d.venue.open[k].side == Buy then book.asks else book.bids,
              d.venue.open[k].quantity - d.venue.open[k].filled);
  }

  // ----- Cancels, fills heard and submits

  /** A cancel: a working order is cancelled at the next reading and journaled; otherwise nothing happens. */
  lemma {:induction false} CancelledOnDesk(env: Env, d: DeskState, oid: OrderId)
    requires Good(d)
    ensures var e := CancelOne(env, d, oid);
            if oid in d.venue.open then
              var o := d.venue.open[oid].(status := Cancelled, updatedAt := env.clock(d.ticks));
              && oid !in e.venue.open && oid in e.venue.all && e.venue.all[oid] == o
              && oid in e.orders && e.orders[oid] == o && e.rows == d.rows + [o] && e.ticks == d.ticks + 1
              && e.venue.positions == d.venue.positions && e.venue.books == d.venue.books && e.fills == d.fills
              && (forall k :: k != oid ==> Unchanged(d.venue, e.venue, k))
            else e == d
  {
    hide Explained, ExposureOk;
    if oid in d.venue.open {
      OpenIsAll(d.venue, oid);
    }
  }

  /**
    A fill heard: it is journaled, and a cached order has it added, is FILLED exactly if that is all of it,
    and its average times its filled quantity grows by the notional; the new version is journaled.  An order
    the cache does not know stays unknown.
   */
  lemma {:induction false} FillHeard(d: DeskState, fill: Fill)
    requires fill.orderId in d.orders ==> d.orders[fill.orderId].orderId == fill.orderId
    ensures var e, k := OnFill(d, fill), fill.orderId;
            && e.fills == d.fills + [fill] && e.venue == d.venue && e.ticks == d.ticks
            && (k !in d.orders ==> e.orders == d.orders && e.rows == d.rows)
            && (k in d.orders ==>
                  var o := d.orders[k];
                  && e.orders.Keys == d.orders.Keys
                  && (forall j :: j in d.orders && j != k ==> e.orders[j] == d.orders[j])
                  && e.rows == d.rows + [e.orders[k]]
                  && e.orders[k].filled == o.filled + fill.quantity
                  && e.orders[k].status == (if e.orders[k].filled < o.quantity then PartiallyFilled else Filled)
                  && e.orders[k].updatedAt == fill.timestamp
                  && e.orders[k].averagePrice.Some?
                  && (o.averagePrice.None? ==> e.orders[k].averagePrice.value == fill.price)
                  && (o.averagePrice.Some? && e.orders[k].filled > 0.0 ==>
                        Product(e.orders[k].averagePrice.value, e.orders[k].filled)
                        == Product(o.averagePrice.value, o.filled) + Product(fill.price, fill.quantity))
                  && e.orders[k] == o.(filled := e.orders[k].filled, status := e.orders[k].status,
                                       averagePrice := e.orders[k].averagePrice, updatedAt := fill.timestamp))
  {
    hide Product;
    if fill.orderId in d.orders {
      var o := d.orders[fill.orderId];
      if o.averagePrice.Some? && o.filled + fill.quantity > 0.0 {
        QuotientProduct(Product(o.averagePrice.value, o.filled) + Product(fill.price, fill.quantity),
                        o.filled + fill.quantity);
      }
    }
  }

  /**
    A submit writes, last of all, a row as the intent asked for it: SUBMITTED, nothing filled, stamped with the
    reading before the venue was called, under the id the venue gave.
   */
  lemma {:induction false} SubmitWritesLast(env: Env, d: DeskState, intent: TradeIntent, cid: string)
    ensures var e := Submit(env, d, intent, cid);
            && |e.rows| > 0
            && var row := e.rows[|e.rows| - 1];
            && row.orderId == d.venue.nextOid + 1 == e.venue.nextOid && row.clientOrderId == cid
            && row.symbol == intent.symbol && row.side == intent.side && row.kind == intent.kind
            && row.quantity == intent.quantity && row.filled == 0.0 && row.price == intent.price
            && row.averagePrice == None && row.status == Submitted && row.timeInForce == intent.timeInForce
            && row.reduceOnly == intent.reduceOnly
            && row.createdAt == env.clock(d.ticks) && row.updatedAt == env.clock(d.ticks)
            && row.orderId in e.orders
  {
    hide PlaceOrder;
    PlacedId(env, d.(ticks := d.ticks + 1), RequestOf(intent, cid));
  }

  /**
    A submit places what the intent asks for: as a request with just its fields and the client id given, after the
    first reading.  The order it leaves carries them.
   */
  lemma {:induction false} SubmitPlaces(env: Env, d: DeskState, intent: TradeIntent, cid: string, req: OrderRequest)
    requires Good(d) && env.engine.Sane() && intent.quantity > 0.0 && PositivePrice(intent.price)
    requires req.symbol == intent.symbol && req.side == intent.side && req.kind == intent.kind
    requires req.quantity == intent.quantity && req.price == intent.price && req.timeInForce == intent.timeInForce
    requires req.reduceOnly == intent.reduceOnly && req.clientOrderId == cid
    ensures var e, placed := Submit(env, d, intent, cid), PlaceOrder(env, d.(ticks := d.ticks + 1), req);
            && e.venue == placed.venue && e.orders == placed.orders && e.fills == placed.fills
            && e.rows[..|e.rows| - 1] == placed.rows
            && e.venue.nextOid in e.venue.all
            && var o := e.venue.all[e.venue.nextOid];
            && o.clientOrderId == cid && o.symbol == intent.symbol && o.side == intent.side && o.kind == intent.kind
            && o.quantity == intent.quantity && o.price == intent.price && o.timeInForce == intent.timeInForce
            && o.reduceOnly == intent.reduceOnly && o.createdAt == env.clock(d.ticks + 1)
  {
    hide PlaceOrder, Good, Unchanged, Takes;
    assert req == RequestOf(intent, cid);
    OrderTracking.Ticked(d);
    OrderTracking.SubmittedOrder(env, d, intent, cid);
    PlacedOnDesk(env, d.(ticks := d.ticks + 1), req);
  }

  lemma PlacedId(env: Env, d: DeskState, req: OrderRequest)
    ensures PlaceOrder(env, d, req).venue.nextOid == d.venue.nextOid + 1
  {
    hide Attempt, Updated, WouldCross;
  }
}
