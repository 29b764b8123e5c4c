/**
  The values the trading engine passes around: orders, fills, order books and their identifiers.

  `Decimal` amounts are modelled as `real` and timestamps as `int` (a datetime has a finite
  resolution, so its microseconds are integers).  The paper venue names its orders
  `paper-1`, `paper-2`, ...; an `OrderId` is that number.
 */
module Domain {

  datatype Option<+T> = None | Some(value: T)

  type OrderId = int
  type Symbol = string
  type Time = int

  datatype Side = Buy | Sell

  datatype OrderType = Market | Limit | StopMarket | StopLimit

  datatype TimeInForce = Gtc | Ioc | Fok | PostOnly

  datatype Status =
    | Submitted | Acked | PartiallyFilled
    | Filled | Cancelled | Rejected | Expired | Failed

  /** The statuses in `_TERMINAL_STATUSES`: no further change is expected of such an order. */
  predicate IsTerminal(s: Status) {
    s == Filled || s == Cancelled || s == Rejected || s == Expired || s == Failed
  }

  /** So an order is still working in exactly three statuses. */
  lemma WorkingStatuses(s: Status)
    ensures !IsTerminal(s) <==> s in {Submitted, Acked, PartiallyFilled}
  {
  }

  datatype OrderRequest = OrderRequest(
    symbol: Symbol, side: Side, kind: OrderType, quantity: real, clientOrderId: string,
    price: Option<real>, timeInForce: TimeInForce, reduceOnly: bool)

  /** What a strategy asks for, before a client order id is assigned. */
  datatype TradeIntent = TradeIntent(
    symbol: Symbol, side: Side, kind: OrderType, quantity: real,
    price: Option<real>, timeInForce: TimeInForce, reduceOnly: bool)

  datatype Order = Order(
    orderId: OrderId, clientOrderId: string, symbol: Symbol, side: Side, kind: OrderType,
    quantity: real, filled: real, price: Option<real>, averagePrice: Option<real>,
    status: Status, timeInForce: TimeInForce, reduceOnly: bool,
    createdAt: Time, updatedAt: Time)

  datatype Fill = Fill(
    orderId: OrderId, symbol: Symbol, side: Side, price: real, quantity: real,
    fee: real, feeCurrency: string, isMaker: bool, timestamp: Time)

  datatype Level = Level(price: real, quantity: real)

  datatype Book = Book(symbol: Symbol, bids: seq<Level>, asks: seq<Level>, sequence: int, timestamp: Time)
  {
    function BestBid(): Option<Level> {
      if |bids| == 0 then None else Some(bids[0])
    }

    function BestAsk(): Option<Level> {
      if |asks| == 0 then None else Some(asks[0])
    }

    /** The side of the book an order on side `s` trades against. */
    function Opposite(s: Side): seq<Level> {
      if s == Buy then asks else bids
    }
  }

  function Abs(x: real): real {
    if x < 0.0 then -x else x
  }

  function Min(x: real, y: real): real {
    if x <= y then x else y
  }

  /** Multiplication under a name, so that a proof can treat a product as one term. */
  function Product(x: real, y: real): real {
    x * y
  }

  lemma ProductAdds(a: real, x: real, y: real)
    ensures Product(a, x + y) == Product(a, x) + Product(a, y)
    ensures Product(a, x - y) == Product(a, x) - Product(a, y)
  {
  }

  lemma ProductMonotone(x: real, y: real, d: real)
    requires x <= y && d >= 0.0
    ensures Product(x, d) <= Product(y, d)
  {
  }

  lemma QuotientBetween(lo: real, n: real, d: real, hi: real)
    requires d > 0.0 && Product(lo, d) <= n <= Product(hi, d)
    ensures lo <= n / d <= hi
  {
    assert n / d * d == n;
  }

  lemma QuotientFrom(lo: real, n: real, d: real)
    requires d > 0.0 && Product(lo, d) <= n
    ensures lo <= n / d
  {
    assert n / d * d == n;
  }

  lemma QuotientProduct(n: real, d: real)
    requires d > 0.0
    ensures Product(n / d, d) == n
  {
  }

  lemma ProductPositive(x: real, y: real)
    requires x > 0.0 && y > 0.0
    ensures Product(x, y) > 0.0
  {
  }

  lemma ProductZero(x: real)
    ensures Product(x, 0.0) == 0.0
  {
  }

  lemma ProductNegates(x: real, y: real)
    ensures Product(-x, y) == -Product(x, y)
  {
  }

  /**
    The division by the new filled quantity in `_apply_fill_to_order` and `_on_fill`, which raises
    if that is zero; fills trade positive amounts, so in reachable states it never is.
   */
  function Quotient(x: real, y: real): real {
    if y == 0.0 then 0.0 else x / y
  }

  /** `quantity` with the sign of the trade: bought amounts are positive. */
  function Signed(side: Side, quantity: real): real {
    if side == Buy then quantity else -quantity
  }

  // ----- Standing assumptions on what the outside world supplies

  predicate PositiveLevels(levels: seq<Level>) {
    forall i :: 0 <= i < |levels| ==> levels[i].quantity > 0.0 && levels[i].price > 0.0
  }

  predicate Ascending(levels: seq<Level>) {
    forall i, j :: 0 <= i < j < |levels| ==> levels[i].price <= levels[j].price
  }

  predicate Descending(levels: seq<Level>) {
    forall i, j :: 0 <= i < j < |levels| ==> levels[i].price >= levels[j].price
  }

  predicate PositiveBook(b: Book) {
    PositiveLevels(b.bids) && PositiveLevels(b.asks)
  }

  predicate SortedBook(b: Book) {
    Descending(b.bids) && Ascending(b.asks)
  }
}
