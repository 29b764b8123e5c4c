/**
  What the venue's segments do, told in levels, prices and quantities: which requests are rejected,
  what a book does to an order tried on it, and that a book that arrives is tried on every order it lists.
 */
module VenueEffects {
  import opened Domain
  import opened FillEngines
  import opened Positions
  import opened Venue

  // ----- Placing

  /**
    A placed order carries the request; it is rejected exactly if it is POST_ONLY, priced, and the first
    level of the other side of a known book is at or through its price; otherwise it is working.
    Nothing else changes.
   */
  lemma {:induction false} Placed(v: VenueState, req: OrderRequest, now: Time)
    requires Consistent(v)
    ensures var w, oid := Accept(v, req, now), v.nextOid + 1;
            && w.nextOid == oid && oid !in v.all && oid in w.all
            && var o := w.all[oid];
            && o.orderId == oid && o.clientOrderId == req.clientOrderId && o.symbol == req.symbol && o.side == req.side
            && o.kind == req.kind && o.quantity == req.quantity && o.filled == 0.0 && o.price == req.price
            && o.averagePrice == None && o.timeInForce == req.timeInForce && o.reduceOnly == req.reduceOnly
            && o.createdAt == now && o.updatedAt == now
            && (o.status == Rejected
                <==> && req.timeInForce == PostOnly && req.price.Some? && req.symbol in v.books
                     && (req.side == Buy ==>
                           && |v.books[req.symbol].asks| > 0
                           && v.books[req.symbol].asks[0].price <= req.price.value)
                     && (req.side == Sell ==>
                           && |v.books[req.symbol].bids| > 0
                           && v.books[req.symbol].bids[0].price >= req.price.value))
            && (o.status != Rejected ==> o.status == Acked && oid in w.open && w.open[oid] == o)
            && (o.status == Rejected ==> oid !in w.open)
    ensures var w, oid := Accept(v, req, now), v.nextOid + 1;
            && w.positions == v.positions && w.books == v.books
            && (forall k :: k != oid ==> Unchanged(v, w, k))
  {
    hide ExposureOk;
  }

  /** Nothing happened to order `k`. */
  predicate Unchanged(v: VenueState, w: VenueState, k: OrderId) {
    && (k in v.all <==> k in w.all) && (k in v.all ==> w.all[k] == v.all[k])
    && (k in v.open <==> k in w.open) && (k in v.open ==> w.open[k] == v.open[k])
  }

  // ----- Trying an order on a book

  /** The quantity an order not yet filled trades on its own book: all that is left, or what the book holds of it. */
  function Takes(e: FillEngine, o: Order, book: Book): real {
    var offers := if o.side == Buy then book.asks else book.bids;
    var left := o.quantity - o.filled;
    if o.symbol != book.symbol || |offers| == 0 then 0.0
    else if o.kind == Market then (if e.BookAware? && Depth(offers) < left then Depth(offers) else left)
    else if o.kind != Limit || o.price.None? then 0.0
    else if o.side == Buy then (if offers[0].price <= o.price.value then left else 0.0)
    else (if offers[0].price >= o.price.value then left else 0.0)
  }

  /** After order `k` was tried on `book`: it has that much more filled, at that time, and is done if that was all. */
  predicate Tried(e: FillEngine, v: VenueState, w: VenueState, k: OrderId, book: Book, now: Time)
    requires k in v.open
  {
    var o, more := v.open[k], Takes(e, v.open[k], book);
    if more == 0.0 then Unchanged(v, w, k)
    else
      && k in w.all
      && w.all[k].filled == o.filled + more
      && w.all[k].status == (if o.filled + more == o.quantity then Filled else PartiallyFilled)
      && w.all[k].updatedAt == now
      && (k in w.open <==> o.filled + more < o.quantity) && (k in w.open ==> w.open[k] == w.all[k])
      && w.all[k] == o.(filled := w.all[k].filled, status := w.all[k].status, updatedAt := now,
                        averagePrice := w.all[k].averagePrice)
  }

  lemma {:induction false} TakesAtMostLeft(e: FillEngine, o: Order, book: Book)
    requires e.Sane() && PositiveBook(book) && o.filled < o.quantity
    ensures 0.0 <= Takes(e, o, book) <= o.quantity - o.filled
    ensures forall now :: e.TryFill(o, book, now).Some? <==> Takes(e, o, book) > 0.0
    ensures forall now :: e.TryFill(o, book, now).Some? ==>
              && e.TryFill(o, book, now).value.quantity == Takes(e, o, book)
              && e.TryFill(o, book, now).value.timestamp == now
  {
    hide Walk, Depth, Fee;
    var offers := if o.side == Buy then book.asks else book.bids;
    WalkFills(offers, o.quantity - o.filled);
    forall now
      ensures e.TryFill(o, book, now).Some? <==> Takes(e, o, book) > 0.0
      ensures e.TryFill(o, book, now).Some? ==>
                e.TryFill(o, book, now).value.quantity == Takes(e, o, book)
                && e.TryFill(o, book, now).value.timestamp == now
    {
      TradesIff(e, o, book, now);
      if e.TryFill(o, book, now).Some? {
        FillTerms(e, o, book, now);
      }
    }
  }

  /** An attempt does just that to its order, if it works, nothing to any other, and moves no book. */
  lemma {:induction false} AttemptTries(v: VenueState, e: FillEngine, oid: OrderId, book: Book, now: Time)
    requires Consistent(v) && e.Sane() && PositiveBook(book)
    ensures var w := TryFillOrder(v, e, oid, book, now);
            && w.nextOid == v.nextOid && w.books == v.books
            && (oid in v.open ==> Tried(e, v, w, oid, book, now))
            && (oid !in v.open ==> w == v)
            && (forall k :: k != oid ==> Unchanged(v, w, k))
  {
    hide ExposureOk, NewAverage, ApplyFill, Takes;
    if oid in v.open {
      var o := v.open[oid];
      assert v.all[oid] == o && OrderOk(o) && o.orderId == oid && o.filled < o.quantity;
      TakesAtMostLeft(e, o, book);
      if e.TryFill(o, book, now).Some? {
        FillTerms(e, o, book, now);
      }
    }
  }

  // ----- The other segments

  /** Cancelling: a working order is cancelled at that time, and nothing else happens; anything else is refused. */
  lemma {:induction false} CancelSegment(x: Exchange, e: FillEngine, oid: OrderId, now: Time)
    requires Safe(x)
    ensures var y := Step(x, e, Cancel(oid, now));
            && y.tasks == x.tasks && y.fills == x.fills
            && (oid in x.venue.open ==>
                  && oid !in y.venue.open && oid in y.venue.all
                  && y.venue.all[oid] == x.venue.open[oid].(status := Cancelled, updatedAt := now)
                  && y.venue.nextOid == x.venue.nextOid
                  && y.venue.positions == x.venue.positions && y.venue.books == x.venue.books)
            && (oid !in x.venue.open ==> y == x)
            && (forall k :: k != oid ==> Unchanged(x.venue, y.venue, k))
  {
    hide Explained, ExposureOk;
  }

  /** A book arrives: it is stored, and left waiting with exactly the working orders on its symbol, each once. */
  lemma {:induction false} BookSegment(x: Exchange, e: FillEngine, book: Book)
    ensures var y := Step(x, e, BookArrives(book));
            && y.fills == x.fills && y.venue == x.venue.(books := x.venue.books[book.symbol := book])
            && |y.tasks| == |x.tasks| + 1 && y.tasks[..|x.tasks|] == x.tasks
            && y.tasks[|x.tasks|].FillOnBook? && y.tasks[|x.tasks|].book == book
            && var ids := y.tasks[|x.tasks|].pending;
            && (forall k :: k in ids <==> k in x.venue.open && x.venue.open[k].symbol == book.symbol)
            && (forall i, j :: 0 <= i < j < |ids| ==> ids[i] < ids[j])
  {
    hide IdsOn;
    ListedInOrder(x.venue.open, Some(book.symbol));
  }

  lemma ListedInOrder(orders: map<OrderId, Order>, symbol: Option<Symbol>)
    ensures var ids := IdsOn(orders, symbol); forall i, j :: 0 <= i < j < |ids| ==> ids[i] < ids[j]
  {
    IdsOrdered();
    var ids := IdsOn(orders, symbol);
    forall i, j | 0 <= i < j < |ids|
      ensures ids[i] < ids[j]
    {
      assert Earlier(ids[i], ids[j]) && ids[i] != ids[j];
    }
  }

  /** A placing: an order that is not rejected is left waiting to be tried. */
  lemma {:induction false} PlaceSegment(x: Exchange, e: FillEngine, req: OrderRequest, now: Time)
    requires Safe(x)
    ensures var y := Step(x, e, Place(req, now));
            && y.fills == x.fills && y.venue == Accept(x.venue, req, now)
            && y.venue.nextOid == x.venue.nextOid + 1 && y.venue.nextOid in y.venue.all
            && y.tasks == (if y.venue.all[y.venue.nextOid].status == Rejected then x.tasks
                           else x.tasks + [FillOnAck(y.venue.nextOid, req.symbol)])
  {
    hide Explained, ExposureOk, WouldCross;
  }

  /** What the next segment of waiting operation `i` tries, if anything: which order on which book. */
  function Next(x: Exchange, i: int): Option<(OrderId, Book)> {
    if !(0 <= i < |x.tasks|) then None
    else
      match x.tasks[i]
      case FillOnAck(oid, symbol) => if symbol in x.venue.books then Some((oid, x.venue.books[symbol])) else None
      case FillOnBook(pending, book) => if |pending| > 0 then Some((pending[0], book)) else None
  }

  /**
    An operation goes on: it tries the order of the placing on the latest book, or the first listed order on
    the book that arrived, and leaves the rest of the list waiting.  A fill is fired exactly if
    the order takes something.
   */
  lemma {:induction false} ResumeSegment(x: Exchange, e: FillEngine, i: int, now: Time)
    requires Safe(x) && e.Sane() && 0 <= i < |x.tasks|
    ensures var y, next := Step(x, e, Resume(i, now)), Next(x, i);
            && (next.None? ==> y.venue == x.venue && y.fills == x.fills)
            && (next.Some? && next.value.0 !in x.venue.open ==> y.venue == x.venue && y.fills == x.fills)
            && (next.Some? && next.value.0 in x.venue.open ==>
                  var (oid, book) := next.value;
                  var more := Takes(e, x.venue.open[oid], book);
                  && Tried(e, x.venue, y.venue, oid, book, now)
                  && (forall k :: k != oid ==> Unchanged(x.venue, y.venue, k))
                  && (if more == 0.0 then y.fills == x.fills
                      else && |y.fills| == |x.fills| + 1 && y.fills[..|x.fills|] == x.fills
                           && y.fills[|x.fills|].orderId == oid && y.fills[|x.fills|].quantity == more))
            && y.tasks == (if x.tasks[i].FillOnBook? && |x.tasks[i].pending| > 0
                           then x.tasks[i := FillOnBook(x.tasks[i].pending[1..], x.tasks[i].book)]
                           else x.tasks[..i] + x.tasks[i + 1..])
  {
    hide Consistent, Explained, TryFillOrder, Takes, Tried, Unchanged;
    TaskBook(x, i);
    var next := Next(x, i);
    if next.Some? {
      var (oid, book) := next.value;
      AttemptTries(x.venue, e, oid, book, now);
      FiredIf(x, e, oid, book, now);
    }
  }

  lemma FiredIf(x: Exchange, e: FillEngine, oid: OrderId, book: Book, now: Time)
    requires Safe(x) && e.Sane() && PositiveBook(book)
    ensures var f := FillStep(x, e, oid, book, now).fills;
            if oid !in x.venue.open || Takes(e, x.venue.open[oid], book) == 0.0 then f == x.fills
            else && |f| == |x.fills| + 1 && f[..|x.fills|] == x.fills
                 && f[|x.fills|].orderId == oid && f[|x.fills|].quantity == Takes(e, x.venue.open[oid], book)
  {
    hide Explained, ExposureOk, Takes, Walk, Depth, Fee;
    if oid in x.venue.open {
      var o := x.venue.open[oid];
      assert x.venue.all[oid] == o && OrderOk(o) && o.orderId == oid;
      TakesAtMostLeft(e, o, book);
      if e.TryFill(o, book, now).Some? {
        FillTerms(e, o, book, now);
      }
    }
  }

  // ----- Every listed order is tried

  function Occurs(ids: seq<OrderId>, oid: OrderId): nat {
    if |ids| == 0 then 0 else (if ids[0] == oid then 1 else 0) + Occurs(ids[1..], oid)
  }

  /** How often `oid` is still waiting to be tried on `book`. */
  function Waiting(tasks: seq<Task>, oid: OrderId, book: Book): nat {
    if |tasks| == 0 then 0
    else
      Waiting(tasks[1..], oid, book)
      + (if tasks[0].FillOnBook? && tasks[0].book == book then Occurs(tasks[0].pending, oid) else 0)
  }

  /** How often the arrival of `book` found `oid` working on its symbol, in the run from `x`. */
  ghost function Listings(x: Exchange, e: FillEngine, actions: seq<Action>, oid: OrderId, book: Book): nat {
    if |actions| == 0 then 0
    else
      var before, a := Exec(x, e, actions[..|actions| - 1]), actions[|actions| - 1];
      Listings(x, e, actions[..|actions| - 1], oid, book)
      + (if a == BookArrives(book) && oid in before.venue.open && before.venue.open[oid].symbol == book.symbol
         then 1 else 0)
  }

  /** How often a segment of the run tried `oid` on `book` as the next listed order. */
  ghost function Tries(x: Exchange, e: FillEngine, actions: seq<Action>, oid: OrderId, book: Book): nat {
    if |actions| == 0 then 0
    else
      var before, a := Exec(x, e, actions[..|actions| - 1]), actions[|actions| - 1];
      Tries(x, e, actions[..|actions| - 1], oid, book)
      + (if a.Resume? && 0 <= a.index < |before.tasks| && before.tasks[a.index].FillOnBook?
            && Next(before, a.index) == Some((oid, book)) then 1 else 0)
  }

  /**
    Under every interleaving no listed order is forgotten: how often an order was working when a book
    arrived is how often it was tried on that book plus how often it is still waiting to be.
   */
  lemma {:induction false} EveryListedOrderIsTried(e: FillEngine, actions: seq<Action>, oid: OrderId, book: Book)
    ensures Listings(EMPTY_EXCHANGE, e, actions, oid, book)
            == Tries(EMPTY_EXCHANGE, e, actions, oid, book) + Waiting(Exec(EMPTY_EXCHANGE, e, actions).tasks, oid, book)
  {
    hide Step, Waiting, Next;
    if |actions| == 0 {
      NoneWaiting(oid, book);
    } else {
      EveryListedOrderIsTried(e, actions[..|actions| - 1], oid, book);
      StepWaits(Exec(EMPTY_EXCHANGE, e, actions[..|actions| - 1]), e, actions[|actions| - 1], oid, book);
    }
  }

  lemma NoneWaiting(oid: OrderId, book: Book)
    ensures Waiting([], oid, book) == 0
  {
  }

  lemma {:induction false} StepWaits(x: Exchange, e: FillEngine, a: Action, oid: OrderId, book: Book)
    ensures var listed := a == BookArrives(book) && oid in x.venue.open && x.venue.open[oid].symbol == book.symbol;
            var tried := a.Resume? && 0 <= a.index < |x.tasks| && x.tasks[a.index].FillOnBook?
                         && Next(x, a.index) == Some((oid, book));
            Waiting(Step(x, e, a).tasks, oid, book) + (if tried then 1 else 0)
            == Waiting(x.tasks, oid, book) + (if listed then 1 else 0)
  {
    hide Waiting, Occurs, IdsOn, FillStep, Accept, InitialStatus;
    match a
    case Place(req, now) => WaitingAppend(x.tasks, FillOnAck(Accept(x.venue, req, now).nextOid, req.symbol), oid, book);
    case Cancel(_, _) =>
    case BookArrives(arrived) =>
      var ids := IdsOn(x.venue.open, Some(arrived.symbol));
      ListedInOrder(x.venue.open, Some(arrived.symbol));
      WaitingAppend(x.tasks, FillOnBook(ids, arrived), oid, book);
      OccursOnce(ids, oid);
    case Resume(i, now) =>
      if 0 <= i < |x.tasks| {
        TakeStep(x, e, i, now);
        match x.tasks[i]
        case FillOnAck(_, _) =>
          WaitingReplace(x.tasks, i, [], oid, book);
        case FillOnBook(pending, on) =>
          if |pending| > 0 {
            WaitingReplace(x.tasks, i, [FillOnBook(pending[1..], on)], oid, book);
            OccursFirst(pending, oid);
          } else {
            WaitingReplace(x.tasks, i, [], oid, book);
            OccursNowhere(oid);
          }
      }
  }

  lemma TakeStep(x: Exchange, e: FillEngine, i: int, now: Time)
    requires 0 <= i < |x.tasks|
    ensures Step(x, e, Resume(i, now)).tasks
            == x.tasks[..i] + (if x.tasks[i].FillOnBook? && |x.tasks[i].pending| > 0
                               then [FillOnBook(x.tasks[i].pending[1..], x.tasks[i].book)] else [])
               + x.tasks[i + 1..]
  {
    hide TryFillOrder, Attempt;
  }

  /** What one waiting operation contributes. */
  function Share(task: Task, oid: OrderId, book: Book): nat {
    if task.FillOnBook? && task.book == book then Occurs(task.pending, oid) else 0
  }

  lemma {:induction false} WaitingConcat(xs: seq<Task>, ys: seq<Task>, oid: OrderId, book: Book)
    ensures Waiting(xs + ys, oid, book) == Waiting(xs, oid, book) + Waiting(ys, oid, book)
  {
    hide Occurs;
    if |xs| == 0 {
      assert xs + ys == ys;
    } else {
      assert (xs + ys)[1..] == xs[1..] + ys;
      WaitingConcat(xs[1..], ys, oid, book);
    }
  }

  lemma WaitingOne(task: Task, oid: OrderId, book: Book)
    ensures Waiting([task], oid, book) == Share(task, oid, book)
  {
    hide Occurs;
    assert [task][1..] == [];
  }

  lemma WaitingAppend(tasks: seq<Task>, task: Task, oid: OrderId, book: Book)
    ensures Waiting(tasks + [task], oid, book) == Waiting(tasks, oid, book) + Share(task, oid, book)
  {
    hide Waiting, Share;
    WaitingConcat(tasks, [task], oid, book);
    WaitingOne(task, oid, book);
  }

  lemma WaitingReplace(tasks: seq<Task>, i: int, by': seq<Task>, oid: OrderId, book: Book)
    requires 0 <= i < |tasks|
    ensures Waiting(tasks[..i] + by' + tasks[i + 1..], oid, book) + Share(tasks[i], oid, book)
            == Waiting(tasks, oid, book) + Waiting(by', oid, book)
    ensures |by'| == 1 ==> Waiting(by', oid, book) == Share(by'[0], oid, book)
    ensures |by'| == 0 ==> Waiting(by', oid, book) == 0
  {
    hide Waiting, Share;
    assert tasks == tasks[..i] + [tasks[i]] + tasks[i + 1..];
    WaitingConcat(tasks[..i], [tasks[i]], oid, book);
    WaitingConcat(tasks[..i] + [tasks[i]], tasks[i + 1..], oid, book);
    WaitingConcat(tasks[..i], by', oid, book);
    WaitingConcat(tasks[..i] + by', tasks[i + 1..], oid, book);
    WaitingOne(tasks[i], oid, book);
    NoneWaiting(oid, book);
    if |by'| == 1 {
      assert by' == [by'[0]];
      WaitingOne(by'[0], oid, book);
    }
  }

  lemma {:induction false} OccursOnce(ids: seq<OrderId>, oid: OrderId)
    requires forall i, j :: 0 <= i < j < |ids| ==> ids[i] < ids[j]
    ensures Occurs(ids, oid) == if oid in ids then 1 else 0
  {
    if |ids| > 0 {
      OccursOnce(ids[1..], oid);
      assert oid in ids <==> oid == ids[0] || oid in ids[1..];
      assert ids[0] !in ids[1..];
    }
  }

  lemma OccursFirst(ids: seq<OrderId>, oid: OrderId)
    requires |ids| > 0
    ensures Occurs(ids, oid) == Occurs(ids[1..], oid) + if ids[0] == oid then 1 else 0
  {
  }

  lemma OccursNowhere(oid: OrderId)
    ensures Occurs([], oid) == 0
  {
  }
}
