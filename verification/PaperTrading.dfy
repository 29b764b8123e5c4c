/**
  The objects: the paper venue and the order manager subscribed to it, with the clock and the
  journal they share.  Every method is proved to do what the desk functions say.
 */
module PaperTrading {
  import opened Domain
  import opened Positions
  import opened FillEngines
  import opened Venue
  import opened Journal
  import opened Desk
  import opened Account

  /** A clock is whatever it will read; `ticks` readings have been taken. */
  class Clock {
    const readings: nat -> Time
    var ticks: nat

    constructor (readings: nat -> Time)
      ensures this.readings == readings && ticks == 0
    {
      this.readings := readings;
      ticks := 0;
    }

    method Now() returns (now: Time)
      modifies this
      ensures now == readings(old(ticks)) && ticks == old(ticks) + 1
    {
      now := readings(ticks);
      ticks := ticks + 1;
    }
  }

  datatype AccountBalance = AccountBalance(currency: string, total: real, available: real, marginUsed: real,
      updatedAt: Time)

  /** `PaperVenue` with one subscriber to its order and fill callbacks. */
  class PaperVenue {
    const engine: FillEngine
    const clock: Clock
    const initialBalance: real
    const currency: string

    var nextOid: OrderId
    var openOrders: map<OrderId, Order>
    var allOrders: map<OrderId, Order>
    var positions: map<Symbol, Position>
    var latestBook: map<Symbol, Book>
    var subscriber: DefaultOrderManager?

    constructor (engine: FillEngine, clock: Clock, initialBalance: real, currency: string)
      ensures this.engine == engine && this.clock == clock
      ensures this.initialBalance == initialBalance && this.currency == currency
      ensures State() == EMPTY_VENUE && subscriber == null
    {
      this.engine, this.clock := engine, clock;
      this.initialBalance, this.currency := initialBalance, currency;
      nextOid := 0;
      openOrders, allOrders, positions, latestBook := map[], map[], map[], map[];
      subscriber := null;
    }

    function State(): VenueState
      reads this
    {
      VenueState(nextOid, openOrders, allOrders, positions, latestBook)
    }

    /** The venue's callbacks reach an order manager that works on this venue. */
    ghost predicate Wired()
      reads this
    {
      subscriber != null && subscriber.venue == this && subscriber.clock == clock
    }

    method PlaceOrder(request: OrderRequest) returns (oid: OrderId)
      requires Wired()
      modifies this, subscriber, subscriber.journal, clock
      ensures Wired() && subscriber == old(subscriber)
      ensures subscriber.View() == Desk.PlaceOrder(subscriber.Setting(), old(subscriber.View()), request)
      ensures oid == nextOid
    {
      hide Crosses, Desk.TryFill;
      nextOid := nextOid + 1;
      oid := nextOid;
      var now := clock.Now();
      var initialStatus := Acked;
      if request.timeInForce == PostOnly {
        if request.symbol in latestBook && WouldCross(request, latestBook[request.symbol]) {
          initialStatus := Rejected;
        }
      }
      var order := Order(oid, request.clientOrderId, request.symbol, request.side, request.kind, request.quantity, 0.0,
                         request.price, None, initialStatus, request.timeInForce, request.reduceOnly, now, now);
      allOrders := allOrders[oid := order];
      if initialStatus == Acked {
        openOrders := openOrders[oid := order];
      }
      assert initialStatus == InitialStatus(old(State()), request);
      assert State() == Accept(old(State()), request, now);
      subscriber.OnOrderUpdate(order);
      assert subscriber.View() == Accepted(subscriber.Setting(), old(subscriber.View()), request);
      if initialStatus == Acked {
        if request.symbol in latestBook {
          TryFillOrder(oid, latestBook[request.symbol]);
        }
      }
    }

    method CancelOrder(oid: OrderId) returns (cancelled: bool)
      requires Wired()
      modifies this, subscriber, subscriber.journal, clock
      ensures Wired() && subscriber == old(subscriber)
      ensures subscriber.View() == CancelOne(subscriber.Setting(), old(subscriber.View()), oid)
      ensures cancelled == (oid in old(openOrders))
    {
      if oid !in openOrders {
        return false;
      }
      var order := openOrders[oid];
      openOrders := openOrders - {oid};
      var now := clock.Now();
      var update := order.(status := Cancelled, updatedAt := now);
      allOrders := allOrders[oid := update];
      subscriber.OnOrderUpdate(update);
      return true;
    }

    method OnOrderbook(snapshot: Book)
      requires Wired()
      modifies this, subscriber, subscriber.journal, clock
      ensures Wired() && subscriber == old(subscriber)
      ensures subscriber.View() == Desk.OnOrderbook(subscriber.Setting(), old(subscriber.View()), snapshot)
    {
      hide Desk.TryFill, IdsOn, TryFillEach;
      latestBook := latestBook[snapshot.symbol := snapshot];
      var ids := IdsOn(openOrders, Some(snapshot.symbol));
      ghost var start := subscriber.View();
      assert start == old(subscriber.View()).(venue := StoreBook(old(State()), snapshot));
      TryFillNone(subscriber.Setting(), start, snapshot);
      for i := 0 to |ids|
        invariant Wired() && subscriber == old(subscriber)
        invariant subscriber.View() == TryFillEach(subscriber.Setting(), start, ids[..i], snapshot)
      {
        TryFillNext(subscriber.Setting(), start, ids, i, snapshot);
        TryFillOrder(ids[i], snapshot);
      }
      assert ids[..|ids|] == ids;
    }

    method TryFillOrder(oid: OrderId, snapshot: Book)
      requires Wired()
      modifies this, subscriber, subscriber.journal, clock
      ensures Wired() && subscriber == old(subscriber)
      ensures subscriber.View() == Desk.TryFill(subscriber.Setting(), old(subscriber.View()), oid, snapshot)
      ensures nextOid == old(nextOid)
    {
      if oid !in openOrders {
        return;
      }
      var order := openOrders[oid];
      var now := clock.Now();
      var fill := engine.TryFill(order, snapshot, now);
      if fill.None? {
        return;
      }
      assert fill == Attempt(State(), engine, oid, snapshot, now);
      ApplyFillToOrder(oid, order, fill.value);
    }

    method ApplyFillToOrder(oid: OrderId, order: Order, fill: Fill)
      requires Wired() && oid in openOrders && openOrders[oid] == order
      modifies this, subscriber, subscriber.journal
      ensures Wired() && subscriber == old(subscriber)
      ensures subscriber.View() == FillFired(old(subscriber.View()), oid, fill)
      ensures nextOid == old(nextOid)
    {
      var newFilled := order.filled + fill.quantity;
      var newAverage;
      if order.averagePrice.None? {
        newAverage := fill.price;
      } else {
        var oldTotal := Product(order.averagePrice.value, order.filled);
        newAverage := Quotient(oldTotal + Product(fill.price, fill.quantity), newFilled);
      }
      var newStatus := if newFilled >= order.quantity then Status.Filled else PartiallyFilled;
      var updated := order.(filled := newFilled, averagePrice := Some(newAverage), status := newStatus,
          updatedAt := fill.timestamp);
      if newStatus == Status.Filled {
        openOrders := openOrders - {order.orderId};
      } else {
        openOrders := openOrders[order.orderId := updated];
      }
      allOrders := allOrders[order.orderId := updated];
      var state := if fill.symbol in positions then positions[fill.symbol] else FLAT;
      var result := ApplyFill(state, fill);
      positions := positions[fill.symbol := result.newState];
      assert updated == Updated(order, fill);
      assert State() == ApplyToOrder(old(State()), order, fill);
      // The fill goes out before the order update.
      subscriber.OnFill(fill);
      subscriber.OnOrderUpdate(updated);
    }

    method GetBalance() returns (balance: AccountBalance)
      modifies clock
      ensures balance.total == balance.available == Balance(State(), initialBalance)
      ensures balance.currency == currency && balance.marginUsed == 0.0
      ensures balance.updatedAt == clock.readings(old(clock.ticks)) && clock.ticks == old(clock.ticks) + 1
    {
      hide SumOver;
      ghost var v := State();
      ghost var realized, unrealized := s => Realized(v, s), s => Unrealized(v, s);
      var totalRealized := 0.0;
      var rest := positions.Keys;
      while rest != {}
        invariant rest <= positions.Keys && clock.ticks == old(clock.ticks)
        invariant totalRealized + SumOver(rest, realized) == SumOver(positions.Keys, realized)
        decreases |rest|
      {
        var s :| s in rest;
        SumTakes(rest, realized, s);
        totalRealized := totalRealized + positions[s].realized;
        rest := rest - {s};
      }
      SumOfNone(realized);
      var totalUnrealized := 0.0;
      rest := positions.Keys;
      while rest != {}
        invariant rest <= positions.Keys && clock.ticks == old(clock.ticks)
        invariant totalUnrealized + SumOver(rest, unrealized) == SumOver(positions.Keys, unrealized)
        decreases |rest|
      {
        var s :| s in rest;
        SumTakes(rest, unrealized, s);
        if positions[s].netQty != 0.0 {
          totalUnrealized := totalUnrealized + UnrealizedPnl(State(), s, positions[s]);
        }
        rest := rest - {s};
      }
      SumOfNone(unrealized);
      var total := initialBalance + totalRealized + totalUnrealized;
      var now := clock.Now();
      balance := AccountBalance(currency, total, total, 0.0, now);
    }
  }

  datatype Submission = Submission(orderId: OrderId, clientOrderId: string)

  /** `DefaultOrderManager`, subscribed to its venue on construction. */
  class DefaultOrderManager {
    const venue: PaperVenue
    const journal: OrderJournal
    const clock: Clock
    var orders: map<OrderId, Order>

    constructor (venue: PaperVenue, journal: OrderJournal, clock: Clock)
      requires venue.clock == clock
      modifies venue
      ensures this.venue == venue && this.journal == journal && this.clock == clock
      ensures venue.subscriber == this && venue.Wired()
      ensures venue.State() == old(venue.State()) && orders == map[]
    {
      this.venue, this.journal, this.clock := venue, journal, clock;
      orders := map[];
      new;
      venue.subscriber := this;
    }

    ghost function View(): DeskState
      reads this, venue, journal, clock
    {
      DeskState(venue.State(), orders, journal.rows, journal.fills, clock.ticks)
    }

    ghost function Setting(): Env {
      Desk.Env(clock.readings, venue.engine)
    }

    ghost predicate Subscribed()
      reads venue
    {
      venue.subscriber == this && venue.clock == clock
    }

    method Start()
      modifies this
      ensures View() == Restart(old(View()))
    {
      orders := ReadLatest(journal.rows);
    }

    method Submit(intent: TradeIntent, cid: string) returns (result: Submission)
      requires Subscribed()
      modifies this, venue, journal, clock
      ensures Subscribed()
      ensures View() == Desk.Submit(Setting(), old(View()), intent, cid)
      ensures result == Submission(venue.nextOid, cid)
    {
      hide Desk.PlaceOrder;
      var request := OrderRequest(intent.symbol, intent.side, intent.kind, intent.quantity, cid, intent.price,
                                  intent.timeInForce, intent.reduceOnly);
      var submittedAt := clock.Now();
      var oid := venue.PlaceOrder(request);
      var order := Order(oid, cid, intent.symbol, intent.side, intent.kind, intent.quantity, 0.0, intent.price, None,
                         Submitted, intent.timeInForce, intent.reduceOnly, submittedAt, submittedAt);
      journal.WriteOrder(order);
      if oid !in orders {
        orders := orders[oid := order];
      }
      result := Submission(oid, cid);
    }

    method Cancel(oid: OrderId) returns (cancelled: bool)
      requires Subscribed()
      modifies this, venue, journal, clock
      ensures Subscribed()
      ensures View() == CancelOne(Setting(), old(View()), oid)
      ensures cancelled == (oid in old(venue.openOrders))
    {
      cancelled := venue.CancelOrder(oid);
    }

    method CancelAll(symbol: Option<Symbol>) returns (count: nat)
      requires Subscribed()
      modifies this, venue, journal, clock
      ensures Subscribed()
      ensures View() == Desk.CancelAll(Setting(), old(View()), symbol)
      ensures count == CancelCount(Setting(), old(View()), IdsOn(Working(old(orders)), symbol))
    {
      hide CancelOne, IdsOn, Working;
      var ids := OpenOrders(symbol);
      count := 0;
      for i := 0 to |ids|
        invariant Subscribed()
        invariant View() == CancelEach(Setting(), old(View()), ids[..i])
        invariant count == CancelCount(Setting(), old(View()), ids[..i])
      {
        assert ids[..i + 1][..i] == ids[..i];
        var cancelled := venue.CancelOrder(ids[i]);
        if cancelled {
          count := count + 1;
        }
      }
      assert ids[..|ids|] == ids;
    }

    /** `open_orders`, as the ids of the orders returned. */
    function OpenOrders(symbol: Option<Symbol>): seq<OrderId>
      reads this
    {
      IdsOn(Working(orders), symbol)
    }

    method OnOrderUpdate(order: Order)
      modifies this, journal
      ensures View() == Desk.OnOrderUpdate(old(View()), order)
    {
      orders := orders[order.orderId := order];
      journal.WriteOrder(order);
    }

    method OnFill(fill: Fill)
      modifies this, journal
      ensures View() == Desk.OnFill(old(View()), fill)
    {
      journal.WriteFill(fill);
      if fill.orderId !in orders {
        return;
      }
      var order := orders[fill.orderId];
      var newFilled := order.filled + fill.quantity;
      var newAverage;
      if order.averagePrice.None? {
        newAverage := fill.price;
      } else {
        var totalOld := Product(order.averagePrice.value, order.filled);
        newAverage := Quotient(totalOld + Product(fill.price, fill.quantity), newFilled);
      }
      var newStatus := if newFilled >= order.quantity then Status.Filled else PartiallyFilled;
      var updated := order.(filled := newFilled, averagePrice := Some(newAverage), status := newStatus,
          updatedAt := fill.timestamp);
      assert updated == Updated(order, fill);
      orders := orders[fill.orderId := updated];
      journal.WriteOrder(updated);
    }
  }
}
