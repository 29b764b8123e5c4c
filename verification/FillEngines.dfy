/**
  The two fill engines of the paper venue.

  The book-aware engine walks the book level by level.  The walk is shown to be an optimal way of
  trading its quantity, its average price to worsen with size, and its fills never to be better
  for the account than those of the optimistic immediate engine.
 */
module FillEngines {
  import opened Domain
  import opened Positions

  // ----- Walking the book

  datatype Walked = Walked(filled: real, notional: real)

  /** `_walk`: take from successive levels until `remaining` is reached. */
  function Walk(levels: seq<Level>, remaining: real): Walked {
    if |levels| == 0 then Walked(0.0, 0.0)
    else
      var take := Min(remaining, levels[0].quantity);
      if take >= remaining then Walked(take, take * levels[0].price)
      else
        var rest := Walk(levels[1..], remaining - take);
        Walked(take + rest.filled, take * levels[0].price + rest.notional)
  }

  /** One level peeled off, with the product under its name. */
  lemma WalkStep(levels: seq<Level>, remaining: real)
    requires |levels| > 0
    ensures var take := Min(remaining, levels[0].quantity);
            var rest := if take >= remaining then Walked(0.0, 0.0) else Walk(levels[1..], remaining - take);
            Walk(levels, remaining) == Walked(take + rest.filled, Product(levels[0].price, take) + rest.notional)
  {
  }

  /** The loop of `_walk`, with its early exit. */
  method WalkLevels(levels: seq<Level>, remaining: real) returns (filled: real, notional: real)
    ensures Walked(filled, notional) == Walk(levels, remaining)
    ensures PositiveSizes(levels) && remaining >= 0.0 ==> filled == Min(remaining, Depth(levels))
  {
    hide Walk, Product, Depth;
    filled, notional := 0.0, 0.0;
    var i := 0;
    WalkEmpty(remaining - filled);
    while i < |levels|
      invariant 0 <= i <= |levels|
      invariant var rest := Walk(levels[i..], remaining - filled);
                Walk(levels, remaining) == Walked(filled + rest.filled, notional + rest.notional)
    {
      var level := levels[i];
      var take := Min(remaining - filled, level.quantity);
      WalkStep(levels[i..], remaining - filled);
      assert levels[i..][1..] == levels[i + 1..];
      filled := filled + take;
      notional := notional + Product(level.price, take);
      if filled >= remaining {
        break;
      }
      i := i + 1;
    }
    WalkEmpty(remaining - filled);
    if PositiveSizes(levels) && remaining >= 0.0 {
      WalkFills(levels, remaining);
    }
  }

  predicate PositiveSizes(levels: seq<Level>) {
    forall i :: 0 <= i < |levels| ==> levels[i].quantity > 0.0
  }

  function Depth(levels: seq<Level>): real {
    if |levels| == 0 then 0.0 else levels[0].quantity + Depth(levels[1..])
  }

  /** One level peeled off; with nothing remaining the rest of the walk is empty. */
  lemma WalkUnfolds(levels: seq<Level>, remaining: real)
    requires PositiveSizes(levels) && remaining >= 0.0 && |levels| > 0
    ensures var take := Min(remaining, levels[0].quantity);
            var rest := Walk(levels[1..], remaining - take);
            Walk(levels, remaining)
            == Walked(take + rest.filled, Product(levels[0].price, take) + rest.notional)
  {
    WalkNothing(levels[1..]);
  }

  lemma WalkEmpty(remaining: real)
    ensures Walk([], remaining) == Walked(0.0, 0.0)
  {
  }

  lemma WalkNothing(levels: seq<Level>)
    requires PositiveSizes(levels)
    ensures Walk(levels, 0.0) == Walked(0.0, 0.0)
  {
  }

  /** The walk fills as much as the order wants or the book has, whichever is less. */
  lemma {:induction false} WalkFills(levels: seq<Level>, remaining: real)
    requires PositiveSizes(levels) && remaining >= 0.0
    ensures Walk(levels, remaining).filled == Min(remaining, Depth(levels))
    ensures Depth(levels) >= 0.0 && (|levels| > 0 ==> Depth(levels) > 0.0)
  {
    if |levels| > 0 {
      WalkUnfolds(levels, remaining);
      WalkFills(levels[1..], remaining - Min(remaining, levels[0].quantity));
    }
  }

  // ----- Greedy is optimal

  /** An amount to trade at every level, within what the level offers. */
  predicate Feasible(levels: seq<Level>, amounts: seq<real>) {
    |amounts| == |levels| && forall i :: 0 <= i < |levels| ==> 0.0 <= amounts[i] <= levels[i].quantity
  }

  function Total(amounts: seq<real>): real {
    if |amounts| == 0 then 0.0 else amounts[0] + Total(amounts[1..])
  }

  function Value(levels: seq<Level>, amounts: seq<real>): real
    requires |amounts| == |levels|
  {
    if |levels| == 0 then 0.0 else Product(levels[0].price, amounts[0]) + Value(levels[1..], amounts[1..])
  }

  predicate PricedFrom(levels: seq<Level>, floor: real) {
    forall i :: 0 <= i < |levels| ==> levels[i].price >= floor
  }

  /** Trading more costs at least the floor price for every extra unit. */
  lemma {:induction false} Marginal(levels: seq<Level>, x: real, y: real, floor: real)
    requires PositiveSizes(levels) && 0.0 <= x <= y && PricedFrom(levels, floor)
    ensures Walk(levels, y).notional - Walk(levels, x).notional
            >= Product(floor, Walk(levels, y).filled - Walk(levels, x).filled)
  {
    hide Walk, Product;
    if |levels| == 0 {
      WalkEmpty(x);
      WalkEmpty(y);
      ProductAdds(floor, 0.0, 0.0);
    } else {
      var q, p := levels[0].quantity, levels[0].price;
      var tx, ty := Min(x, q), Min(y, q);
      WalkUnfolds(levels, x);
      WalkUnfolds(levels, y);
      Marginal(levels[1..], x - tx, y - ty, floor);
      var rx, ry := Walk(levels[1..], x - tx), Walk(levels[1..], y - ty);
      ProductMonotone(floor, p, ty - tx);
      ProductAdds(floor, ty - tx, ry.filled - rx.filled);
      ProductAdds(p, ty, tx);
      assert Walk(levels, y).filled - Walk(levels, x).filled == (ty - tx) + (ry.filled - rx.filled);
    }
  }

  /** The walk is itself an allocation: it takes what it fills from the levels, at their prices. */
  lemma {:induction false} WalkIsFeasible(levels: seq<Level>, remaining: real)
    requires PositiveSizes(levels) && remaining >= 0.0
    ensures exists amounts :: && Feasible(levels, amounts) && Total(amounts) == Walk(levels, remaining).filled
                              && Value(levels, amounts) == Walk(levels, remaining).notional
  {
    hide Walk, Product;
    if |levels| == 0 {
      WalkEmpty(remaining);
      assert Feasible(levels, []) && Total([]) == 0.0 && Value(levels, []) == 0.0;
    } else {
      var take := Min(remaining, levels[0].quantity);
      WalkUnfolds(levels, remaining);
      WalkIsFeasible(levels[1..], remaining - take);
      var rest :| && Feasible(levels[1..], rest) && Total(rest) == Walk(levels[1..], remaining - take).filled
                  && Value(levels[1..], rest) == Walk(levels[1..], remaining - take).notional;
      var amounts := [take] + rest;
      assert amounts[1..] == rest;
      forall i | 0 <= i < |levels|
        ensures 0.0 <= amounts[i] <= levels[i].quantity
      {
        assert i > 0 ==> amounts[i] == rest[i - 1] && levels[i] == levels[1..][i - 1];
      }
      assert Feasible(levels, amounts);
    }
  }

  lemma {:induction false} FeasibleTotal(levels: seq<Level>, amounts: seq<real>)
    requires Feasible(levels, amounts)
    ensures 0.0 <= Total(amounts) <= Depth(levels)
  {
    if |levels| > 0 {
      FeasibleTotal(levels[1..], amounts[1..]);
    }
  }

  /**
    Buying: on asks sorted upwards no way of buying the same total from the levels is cheaper
    than the walk.
   */
  lemma {:induction false} GreedyIsCheapest(levels: seq<Level>, remaining: real, amounts: seq<real>)
    requires PositiveSizes(levels) && Ascending(levels) && remaining >= 0.0
    requires Feasible(levels, amounts) && Total(amounts) == Walk(levels, remaining).filled
    ensures Walk(levels, remaining).notional <= Value(levels, amounts)
  {
    hide Walk, Product;
    if |levels| == 0 {
      WalkEmpty(remaining);
    } else {
      var q, p, first := levels[0].quantity, levels[0].price, amounts[0];
      var take, rest := Min(remaining, q), levels[1..];
      WalkUnfolds(levels, remaining);
      FirstTake(levels, remaining, amounts);
      GreedyIsCheapest(rest, remaining - first, amounts[1..]);
      Marginal(rest, remaining - take, remaining - first, p);
      var few, many := Walk(rest, remaining - take), Walk(rest, remaining - first);
      assert many.filled - few.filled == take - first;
      ProductAdds(p, take, first);
    }
  }

  /** An allocation of the walk's total takes no more from the best level than the walk does. */
  lemma {:induction false} FirstTake(levels: seq<Level>, remaining: real, amounts: seq<real>)
    requires PositiveSizes(levels) && remaining >= 0.0 && |levels| > 0
    requires Feasible(levels, amounts) && Total(amounts) == Walk(levels, remaining).filled
    ensures var take, first := Min(remaining, levels[0].quantity), amounts[0];
            && first <= take
            && Feasible(levels[1..], amounts[1..])
            && Total(amounts[1..]) == Walk(levels[1..], remaining - first).filled
            && Walk(levels[1..], remaining - first).filled - Walk(levels[1..], remaining - take).filled == take - first
  {
    hide Walk;
    var take, first, rest := Min(remaining, levels[0].quantity), amounts[0], levels[1..];
    WalkFills(levels, remaining);
    WalkFills(rest, remaining - take);
    FeasibleTotal(rest, amounts[1..]);
    WalkFills(rest, remaining - first);
  }

  /** Levels with the sign of every price turned, so that bids sorted downwards become asks. */
  function Mirror(levels: seq<Level>): seq<Level> {
    seq(|levels|, i requires 0 <= i < |levels| => Level(-levels[i].price, levels[i].quantity))
  }

  lemma {:induction false} WalkMirror(levels: seq<Level>, remaining: real)
    ensures Walk(Mirror(levels), remaining) == Walked(Walk(levels, remaining).filled, -Walk(levels, remaining).notional)
  {
    hide Walk, Product;
    if |levels| == 0 {
      WalkEmpty(remaining);
    } else {
      var take := Min(remaining, levels[0].quantity);
      assert Mirror(levels)[1..] == Mirror(levels[1..]);
      WalkStep(levels, remaining);
      WalkStep(Mirror(levels), remaining);
      WalkMirror(levels[1..], remaining - take);
      ProductNegates(levels[0].price, take);
    }
  }

  lemma {:induction false} ValueMirror(levels: seq<Level>, amounts: seq<real>)
    requires |amounts| == |levels|
    ensures Value(Mirror(levels), amounts) == -Value(levels, amounts)
  {
    if |levels| > 0 {
      assert Mirror(levels)[1..] == Mirror(levels[1..]);
      ValueMirror(levels[1..], amounts[1..]);
    }
  }

  /** Selling: on bids sorted downwards no way of selling the same total earns more than the walk. */
  lemma {:induction false} GreedyIsDearest(levels: seq<Level>, remaining: real, amounts: seq<real>)
    requires PositiveSizes(levels) && Descending(levels) && remaining >= 0.0
    requires Feasible(levels, amounts) && Total(amounts) == Walk(levels, remaining).filled
    ensures Walk(levels, remaining).notional >= Value(levels, amounts)
  {
    WalkMirror(levels, remaining);
    ValueMirror(levels, amounts);
    GreedyIsCheapest(Mirror(levels), remaining, amounts);
  }

  // ----- Slippage

  /** Price of the last level the walk takes from. */
  function LastTouched(levels: seq<Level>, remaining: real): real
    requires |levels| > 0
  {
    var take := Min(remaining, levels[0].quantity);
    if take >= remaining || |levels| == 1 then levels[0].price
    else LastTouched(levels[1..], remaining - take)
  }

  /** Nothing is bought below the best ask nor, on average, above the last level touched. */
  lemma {:induction false} AverageBetween(levels: seq<Level>, remaining: real)
    requires PositiveSizes(levels) && Ascending(levels) && |levels| > 0 && remaining > 0.0
    ensures var w := Walk(levels, remaining);
            && w.filled > 0.0
            && levels[0].price <= w.notional / w.filled <= LastTouched(levels, remaining)
  {
    hide Walk, LastTouched, Product;
    NotionalBetween(levels, remaining);
    WalkFills(levels, remaining);
    var w := Walk(levels, remaining);
    QuotientBetween(levels[0].price, w.notional, w.filled, LastTouched(levels, remaining));
  }

  lemma {:induction false} NotionalBetween(levels: seq<Level>, remaining: real)
    requires PositiveSizes(levels) && Ascending(levels) && |levels| > 0 && remaining > 0.0
    ensures var w, last := Walk(levels, remaining), LastTouched(levels, remaining);
            && levels[0].price <= last
            && Product(levels[0].price, w.filled) <= w.notional <= Product(last, w.filled)
  {
    hide Walk, LastTouched, Product;
    var take := Min(remaining, levels[0].quantity);
    var p := levels[0].price;
    WalkUnfolds(levels, remaining);
    LastUnfolds(levels, remaining);
    if take >= remaining || |levels| == 1 {
      WalkNothing(levels[1..]);
      WalkEmpty(remaining - take);
    } else {
      var rest, last := Walk(levels[1..], remaining - take), LastTouched(levels, remaining);
      NotionalBetween(levels[1..], remaining - take);
      WalkFills(levels[1..], remaining - take);
      ProductMonotone(p, levels[1].price, rest.filled);
      ProductMonotone(p, last, take);
      ProductAdds(p, take, rest.filled);
      ProductAdds(last, take, rest.filled);
    }
  }

  lemma LastUnfolds(levels: seq<Level>, remaining: real)
    requires |levels| > 0
    ensures var take := Min(remaining, levels[0].quantity);
            LastTouched(levels, remaining)
            == if take >= remaining || |levels| == 1 then levels[0].price
                else LastTouched(levels[1..], remaining - take)
  {
  }

  /** Beyond `x` every further unit costs at least the last price touched for `x`. */
  lemma {:induction false} MarginalFromLast(levels: seq<Level>, x: real, y: real)
    requires PositiveSizes(levels) && Ascending(levels) && |levels| > 0 && 0.0 < x <= y
    ensures Walk(levels, y).notional - Walk(levels, x).notional
            >= Product(LastTouched(levels, x), Walk(levels, y).filled - Walk(levels, x).filled)
  {
    hide Walk, LastTouched, Product;
    var q := levels[0].quantity;
    LastUnfolds(levels, x);
    if x <= q || |levels| == 1 {
      Marginal(levels, x, y, levels[0].price);
    } else {
      WalkUnfolds(levels, x);
      WalkUnfolds(levels, y);
      MarginalFromLast(levels[1..], x - q, y - q);
      assert Walk(levels, y).filled - Walk(levels, x).filled
          == Walk(levels[1..], y - q).filled - Walk(levels[1..], x - q).filled;
    }
  }

  /** A larger order never gets a better average price. */
  lemma {:induction false} AverageWorsens(levels: seq<Level>, x: real, y: real)
    requires PositiveSizes(levels) && Ascending(levels) && |levels| > 0 && 0.0 < x <= y
    ensures Walk(levels, x).filled > 0.0 && Walk(levels, y).filled > 0.0
    ensures Walk(levels, x).notional / Walk(levels, x).filled <= Walk(levels, y).notional / Walk(levels, y).filled
  {
    hide Walk, LastTouched, Product;
    NotionalBetween(levels, x);
    MarginalFromLast(levels, x, y);
    WalkFills(levels, x);
    WalkFills(levels, y);
    CrossAverages(Walk(levels, x), Walk(levels, y), LastTouched(levels, x));
  }

  lemma CrossAverages(a: Walked, b: Walked, last: real)
    requires 0.0 < a.filled <= b.filled && a.notional <= Product(last, a.filled)
    requires b.notional - a.notional >= Product(last, b.filled - a.filled)
    ensures a.notional / a.filled <= b.notional / b.filled
  {
    hide Product;
    var average := a.notional / a.filled;
    QuotientProduct(a.notional, a.filled);
    QuotientBetween(average, a.notional, a.filled, last);
    ProductMonotone(average, last, b.filled - a.filled);
    ProductAdds(average, b.filled, a.filled);
    QuotientFrom(average, b.notional, b.filled);
  }

  lemma NegativeQuotient(x: real, y: real)
    requires y > 0.0
    ensures -x / y == -(x / y)
  {
  }

  /** The same for sales: a larger order never sells at a better average price. */
  lemma {:induction false} SaleAverageWorsens(levels: seq<Level>, x: real, y: real)
    requires PositiveSizes(levels) && Descending(levels) && |levels| > 0 && 0.0 < x <= y
    ensures Walk(levels, x).filled > 0.0 && Walk(levels, y).filled > 0.0
    ensures Walk(levels, x).notional / Walk(levels, x).filled >= Walk(levels, y).notional / Walk(levels, y).filled
    ensures Walk(levels, x).notional / Walk(levels, x).filled <= levels[0].price
  {
    hide Walk, LastTouched;
    WalkMirror(levels, x);
    WalkMirror(levels, y);
    AverageWorsens(Mirror(levels), x, y);
    AverageBetween(Mirror(levels), x);
    NegativeQuotient(Walk(levels, x).notional, Walk(levels, x).filled);
    NegativeQuotient(Walk(levels, y).notional, Walk(levels, y).filled);
  }

  // ----- The engines

  const DEFAULT_MAKER_FEE := 0.0002
  const DEFAULT_TAKER_FEE := 0.00055

  datatype FillEngine =
    | Immediate(feeCurrency: string)
    | BookAware(makerFee: real, takerFee: real, feeCurrency: string)
  {
    predicate Sane() {
      BookAware? ==> makerFee >= 0.0 && takerFee >= 0.0
    }

    /** `try_fill`: what `order` trades against `book`, if anything. */
    function TryFill(order: Order, book: Book, timestamp: Time): Option<Fill> {
      var remaining := order.quantity - order.filled;
      if order.symbol != book.symbol then None
      else if remaining <= 0.0 then None
      else if Immediate? then
        match ImmediatePrice(order, book)
        case None => None
        case Some(price) =>
          Some(Fill(order.orderId, order.symbol, order.side, price, remaining, 0.0, feeCurrency, false, timestamp))
      else if order.kind == Market then MarketFill(order, book, remaining, timestamp)
      else if order.kind == Limit then LimitFill(order, book, remaining, timestamp)
      else None
    }

    function MarketFill(order: Order, book: Book, remaining: real, timestamp: Time): Option<Fill>
      requires BookAware?
    {
      var w := Walk(book.Opposite(order.side), remaining);
      if w.filled == 0.0 then None
      else Some(Build(order, w.notional / w.filled, w.filled, false, timestamp))
    }

    function LimitFill(order: Order, book: Book, remaining: real, timestamp: Time): Option<Fill>
      requires BookAware?
    {
      if order.price.None? || !Crosses(order.side, order.price.value, book) then None
      else Some(Build(order, order.price.value, remaining, true, timestamp))
    }

    function Build(order: Order, price: real, quantity: real, isMaker: bool, timestamp: Time): Fill
      requires BookAware?
    {
      var rate := if isMaker then makerFee else takerFee;
      Fill(order.orderId, order.symbol, order.side, price, quantity, Fee(price, quantity, rate), feeCurrency, isMaker,
          timestamp)
    }
  }

  /** A limit at `price` would trade against the best level of the other side. */
  predicate Crosses(side: Side, price: real, book: Book) {
    match side
    case Buy => book.BestAsk().Some? && book.BestAsk().value.price <= price
    case Sell => book.BestBid().Some? && book.BestBid().value.price >= price
  }

  /** `ImmediateFillEngine._fill_price`. */
  function ImmediatePrice(order: Order, book: Book): Option<real> {
    var best := if order.side == Buy then book.BestAsk() else book.BestBid();
    if best.None? then None
    else if order.kind == Market then Some(best.value.price)
    else if order.kind == Limit && order.price.Some? && Crosses(order.side, order.price.value, book) then
      Some(best.value.price)
    else None
  }

  /** A limit price, where there is one, is positive. */
  predicate PositivePrice(price: Option<real>) {
    price.Some? ==> price.value > 0.0
  }

  /**
    Whichever engine: a fill is for this order, trades a positive amount within what is left of
    it, at a positive price, with a fee that is never a rebate; the immediate engine always
    trades all that is left.
   */
  lemma {:induction false} FillIsSane(e: FillEngine, order: Order, book: Book, timestamp: Time)
    requires e.Sane() && PositiveBook(book) && PositivePrice(order.price)
    ensures match e.TryFill(order, book, timestamp)
            case None => true
            case Some(f) =>
              && f.orderId == order.orderId && f.symbol == order.symbol == book.symbol && f.side == order.side
              && f.timestamp == timestamp
              && 0.0 < f.quantity <= order.quantity - order.filled
              && f.price > 0.0 && f.fee >= 0.0
              && (e.Immediate? ==> f.quantity == order.quantity - order.filled && f.fee == 0.0)
  {
    hide Fee, Walk;
    var remaining := order.quantity - order.filled;
    if e.BookAware? && order.symbol == book.symbol && remaining > 0.0 {
      if order.kind == Market {
        MarketFillIsSane(e, order, book, timestamp);
      } else if order.kind == Limit && order.price.Some? {
        FeeNotNegative(order.price.value, remaining, e.makerFee);
      }
    }
  }

  /** Not yet filled, and the other side of its own book offers a price the order takes. */
  predicate Marketable(order: Order, book: Book) {
    var offers := book.Opposite(order.side);
    && order.symbol == book.symbol && order.filled < order.quantity && |offers| > 0
    && (order.kind == Market
        || (order.kind == Limit && order.price.Some?
            && if order.side == Buy then offers[0].price <= order.price.value
                 else offers[0].price >= order.price.value))
  }

  /**
    Both engines trade exactly the marketable orders.  A limit is never broken.  The immediate engine
    trades at the best price; the book-aware one at the limit, as maker, or for what the walk costs, as taker.
   */
  lemma {:induction false} FillsIffMarketable(e: FillEngine, order: Order, book: Book, timestamp: Time)
    requires e.Sane() && PositiveBook(book)
    ensures e.TryFill(order, book, timestamp).Some? <==> Marketable(order, book)
    ensures Marketable(order, book) ==>
              var f, offers := e.TryFill(order, book, timestamp).value, book.Opposite(order.side);
              var remaining := order.quantity - order.filled;
              && (order.kind == Limit ==>
                    if order.side == Buy then offers[0].price <= f.price <= order.price.value
                    else offers[0].price >= f.price >= order.price.value)
              && (e.Immediate? ==> f.price == offers[0].price && f.quantity == remaining && f.fee == 0.0)
              && (e.BookAware? ==>
                    && f.isMaker == (order.kind == Limit)
                    && f.fee == Fee(f.price, f.quantity, if order.kind == Limit then e.makerFee else e.takerFee)
                    && (order.kind == Limit ==> f.price == order.price.value && f.quantity == remaining)
                    && (order.kind == Market ==>
                          f.quantity == Min(remaining, Depth(offers))
                          && Product(f.price, f.quantity) == Walk(offers, remaining).notional))
  {
    hide Fee, Walk, Depth;
    var remaining, offers := order.quantity - order.filled, book.Opposite(order.side);
    if e.BookAware? && order.kind == Market && remaining > 0.0 {
      MarketFillIsSane(e, order, book, timestamp);
      if |offers| > 0 && order.symbol == book.symbol {
        QuotientProduct(Walk(offers, remaining).notional, Walk(offers, remaining).filled);
      }
    }
  }

  /** When an engine trades, level by level and price by price. */
  lemma {:induction false} TradesIff(e: FillEngine, order: Order, book: Book, timestamp: Time)
    requires e.Sane() && PositiveBook(book)
    ensures e.TryFill(order, book, timestamp).Some?
            <==> && order.symbol == book.symbol && order.filled < order.quantity
                 && (order.kind == Market || (order.kind == Limit && order.price.Some?))
                 && (order.side == Buy ==>
                       |book.asks| > 0 && (order.kind == Limit ==> book.asks[0].price <= order.price.value))
                 && (order.side == Sell ==>
                       |book.bids| > 0 && (order.kind == Limit ==> book.bids[0].price >= order.price.value))
  {
    FillsIffMarketable(e, order, book, timestamp);
  }

  /**
    What a fill says and costs: whose it is, when, and in which currency; the immediate engine's is
    free and never a maker's; the book-aware engine takes the taker rate of what the walk costs, or
    the maker rate of the limit price times all that was left.
   */
  lemma {:induction false} FillTerms(e: FillEngine, order: Order, book: Book, timestamp: Time)
    requires e.Sane() && PositiveBook(book) && e.TryFill(order, book, timestamp).Some?
    ensures var f, remaining := e.TryFill(order, book, timestamp).value, order.quantity - order.filled;
            var offers := if order.side == Buy then book.asks else book.bids;
            && f.orderId == order.orderId && f.symbol == order.symbol && f.side == order.side
            && f.timestamp == timestamp && f.feeCurrency == e.feeCurrency
            && (e.Immediate? ==> !f.isMaker && f.fee == 0.0 && f.price == offers[0].price && f.quantity == remaining)
            && (e.BookAware? && order.kind == Market ==>
                  && !f.isMaker && f.quantity == Walk(offers, remaining).filled
                  && f.price * f.quantity == Walk(offers, remaining).notional
                  && f.fee == e.takerFee * Walk(offers, remaining).notional)
            && (e.BookAware? && order.kind == Limit ==>
                  && f.isMaker && f.quantity == remaining && f.price == order.price.value
                  && f.fee == e.makerFee * (order.price.value * remaining))
  {
    hide Walk, Depth, Fee, FillEngine.MarketFill, FillEngine.LimitFill;
    var remaining := order.quantity - order.filled;
    if e.BookAware? && order.kind == Market {
      MarketTerms(e, order, book, remaining, timestamp);
    } else if e.BookAware? {
      LimitTerms(e, order, book, remaining, timestamp);
    }
  }

  lemma MarketTerms(e: FillEngine, order: Order, book: Book, remaining: real, timestamp: Time)
    requires e.BookAware? && PositiveBook(book) && remaining > 0.0
    requires e.MarketFill(order, book, remaining, timestamp).Some?
    ensures var f := e.MarketFill(order, book, remaining, timestamp).value;
            var w := Walk(if order.side == Buy then book.asks else book.bids, remaining);
            && f.orderId == order.orderId && f.symbol == order.symbol && f.side == order.side
            && f.timestamp == timestamp && f.feeCurrency == e.feeCurrency
            && !f.isMaker && f.quantity == w.filled
            && f.price * f.quantity == w.notional && f.fee == e.takerFee * w.notional
  {
    hide Walk, Depth, Fee;
    var w := Walk(book.Opposite(order.side), remaining);
    WalkFills(book.Opposite(order.side), remaining);
    PriceOfNotional(w.notional, w.filled);
    FeeOfNotional(w.notional / w.filled, w.filled, w.notional, e.takerFee);
  }

  lemma PriceOfNotional(notional: real, quantity: real)
    requires quantity > 0.0
    ensures notional / quantity * quantity == notional
  {
  }

  lemma LimitTerms(e: FillEngine, order: Order, book: Book, remaining: real, timestamp: Time)
    requires e.BookAware? && order.kind == Limit && e.LimitFill(order, book, remaining, timestamp).Some?
    ensures var f := e.LimitFill(order, book, remaining, timestamp).value;
            && f.orderId == order.orderId && f.symbol == order.symbol && f.side == order.side
            && f.timestamp == timestamp && f.feeCurrency == e.feeCurrency
            && order.price.Some? && f.isMaker && f.quantity == remaining && f.price == order.price.value
            && f.fee == e.makerFee * (order.price.value * remaining)
  {
    hide Fee;
    if order.price.Some? {
      FeeOfNotional(order.price.value, remaining, order.price.value * remaining, e.makerFee);
    }
  }

  lemma FeeOfNotional(price: real, quantity: real, notional: real, rate: real)
    requires price * quantity == notional
    ensures Fee(price, quantity, rate) == rate * notional
  {
  }

  lemma {:induction false} MarketFillIsSane(e: FillEngine, order: Order, book: Book, timestamp: Time)
    requires e.BookAware? && e.Sane() && PositiveBook(book) && order.quantity - order.filled > 0.0
    ensures var remaining := order.quantity - order.filled;
            match e.MarketFill(order, book, remaining, timestamp)
            case None => |book.Opposite(order.side)| == 0
            case Some(f) =>
              && |book.Opposite(order.side)| > 0
              && f.quantity == Min(remaining, Depth(book.Opposite(order.side))) > 0.0
              && f.price > 0.0 && f.fee >= 0.0
  {
    hide Fee, Walk;
    var levels, remaining := book.Opposite(order.side), order.quantity - order.filled;
    WalkFills(levels, remaining);
    if |levels| == 0 {
      WalkEmpty(remaining);
    } else {
      NotionalPositive(levels, remaining);
      var w := Walk(levels, remaining);
      PositiveQuotient(w.notional, w.filled);
      FeeNotNegative(w.notional / w.filled, w.filled, e.takerFee);
    }
  }

  lemma PositiveQuotient(n: real, d: real)
    requires n > 0.0 && d > 0.0
    ensures n / d > 0.0
  {
  }

  lemma {:induction false} NotionalPositive(levels: seq<Level>, remaining: real)
    requires PositiveLevels(levels) && remaining >= 0.0
    ensures Walk(levels, remaining).notional >= 0.0
    ensures |levels| > 0 && remaining > 0.0 ==> Walk(levels, remaining).notional > 0.0
  {
    hide Walk, Product;
    if |levels| == 0 {
      WalkEmpty(remaining);
    } else {
      var take := Min(remaining, levels[0].quantity);
      WalkUnfolds(levels, remaining);
      NotionalPositive(levels[1..], remaining - take);
      if remaining > 0.0 {
        ProductPositive(levels[0].price, take);
      } else {
        ProductZero(levels[0].price);
      }
    }
  }

  function Fee(price: real, quantity: real, rate: real): real {
    price * quantity * rate
  }

  lemma FeeNotNegative(price: real, quantity: real, rate: real)
    requires price > 0.0 && quantity > 0.0 && rate >= 0.0
    ensures Fee(price, quantity, rate) >= 0.0
  {
    assert price * quantity > 0.0;
  }

  // ----- Realism dominance, one fill at a time

  /** The opposite side is empty or holds at least `quantity`. */
  predicate DeepFor(book: Book, side: Side, quantity: real) {
    |book.Opposite(side)| > 0 ==> Depth(book.Opposite(side)) >= quantity
  }

  /**
    Both engines fill the same orders.  They fill the same quantity exactly when the order is not a
    market order or the book is deep enough for it; then the book-aware fill is never the better.
   */
  lemma {:induction false} BookAwareIsWorse(b: FillEngine, i: FillEngine, order: Order, book: Book, timestamp: Time)
    requires b.BookAware? && i.Immediate? && b.Sane()
    requires PositiveBook(book) && SortedBook(book) && PositivePrice(order.price)
    ensures var f, g := b.TryFill(order, book, timestamp), i.TryFill(order, book, timestamp);
            && (f.Some? <==> g.Some?)
            && (f.Some? ==>
                  && (f.value.quantity == g.value.quantity
                      <==> (order.kind == Market ==> DeepFor(book, order.side, order.quantity - order.filled)))
                  && (f.value.quantity == g.value.quantity ==> WorseFill(f.value, g.value)))
  {
    hide Fee, Walk;
    FillIsSane(b, order, book, timestamp);
    FillIsSane(i, order, book, timestamp);
    var remaining := order.quantity - order.filled;
    if order.symbol == book.symbol && remaining > 0.0 && order.kind == Market {
      MarketFillIsSane(b, order, book, timestamp);
      var levels := book.Opposite(order.side);
      if |levels| > 0 {
        MarketPriceIsWorse(levels, remaining, order.side);
      }
    }
  }

  lemma {:induction false} MarketPriceIsWorse(levels: seq<Level>, remaining: real, side: Side)
    requires PositiveSizes(levels) && |levels| > 0 && remaining > 0.0
    requires if side == Buy then Ascending(levels) else Descending(levels)
    ensures var w := Walk(levels, remaining);
            && w.filled > 0.0
            && (if side == Buy then w.notional / w.filled >= levels[0].price
                 else w.notional / w.filled <= levels[0].price)
  {
    if side == Buy {
      AverageBetween(levels, remaining);
    } else {
      SaleAverageWorsens(levels, remaining, remaining);
    }
  }
}
