/**
  What the account of the paper venue is worth (`get_balance`), and how it depends on the fill engine.
 */
module Account {
  import opened Domain
  import opened Positions
  import opened FillEngines
  import opened Venue

  // ----- Sums over the symbols of a dictionary

  ghost function SumOver(symbols: set<Symbol>, f: Symbol -> real): real {
    if symbols == {} then 0.0
    else
      var s :| s in symbols;
      f(s) + SumOver(symbols - {s}, f)
  }

  lemma SumOfNone(f: Symbol -> real)
    ensures SumOver({}, f) == 0.0
  {
  }

  /** The order in which a sum is taken does not matter: any symbol may come first. */
  lemma {:induction false} SumTakes(symbols: set<Symbol>, f: Symbol -> real, s: Symbol)
    requires s in symbols
    ensures SumOver(symbols, f) == f(s) + SumOver(symbols - {s}, f)
  {
    var first :| first in symbols && SumOver(symbols, f) == f(first) + SumOver(symbols - {first}, f);
    if first != s {
      SumTakes(symbols - {first}, f, s);
      SumTakes(symbols - {s}, f, first);
      assert symbols - {first} - {s} == symbols - {s} - {first};
    }
  }

  lemma {:induction false} SumsAdd(symbols: set<Symbol>, f: Symbol -> real, g: Symbol -> real, h: Symbol -> real)
    requires forall s :: s in symbols ==> h(s) == f(s) + g(s)
    ensures SumOver(symbols, h) == SumOver(symbols, f) + SumOver(symbols, g)
  {
    if symbols != {} {
      var s :| s in symbols;
      SumTakes(symbols, f, s);
      SumTakes(symbols, g, s);
      SumTakes(symbols, h, s);
      SumsAdd(symbols - {s}, f, g, h);
    }
  }

  lemma {:induction false} SumsCompare(symbols: set<Symbol>, f: Symbol -> real, g: Symbol -> real)
    requires forall s :: s in symbols ==> f(s) <= g(s)
    ensures SumOver(symbols, f) <= SumOver(symbols, g)
  {
    if symbols != {} {
      var s :| s in symbols;
      SumTakes(symbols, f, s);
      SumTakes(symbols, g, s);
      SumsCompare(symbols - {s}, f, g);
    }
  }

  lemma {:induction false} SumZero(symbols: set<Symbol>, f: Symbol -> real)
    requires forall s :: s in symbols ==> f(s) == 0.0
    ensures SumOver(symbols, f) == 0.0
  {
    if symbols != {} {
      var s :| s in symbols;
      SumTakes(symbols, f, s);
      SumZero(symbols - {s}, f);
    }
  }

  // ----- The balance

  /** `_mark_price`: mid price, or the one side there is, or the fallback. */
  function MarkPrice(v: VenueState, symbol: Symbol, fallback: real): real {
    if symbol !in v.books then fallback
    else
      var bid, ask := v.books[symbol].BestBid(), v.books[symbol].BestAsk();
      if bid.Some? && ask.Some? then (bid.value.price + ask.value.price) / 2.0
      else if bid.Some? then bid.value.price
      else if ask.Some? then ask.value.price
      else fallback
  }

  /** `_unrealized_pnl`. */
  function UnrealizedPnl(v: VenueState, symbol: Symbol, p: Position): real {
    var mark := MarkPrice(v, symbol, p.entry);
    if p.netQty > 0.0 then (mark - p.entry) * p.netQty else (p.entry - mark) * Abs(p.netQty)
  }

  /** What a symbol adds to the unrealized total: flat positions are skipped. */
  function Unrealized(v: VenueState, symbol: Symbol): real {
    var p := v.PositionOf(symbol);
    if p.netQty == 0.0 then 0.0 else UnrealizedPnl(v, symbol, p)
  }

  function Realized(v: VenueState, symbol: Symbol): real {
    v.PositionOf(symbol).realized
  }

  /** `get_balance().total`. */
  ghost function Balance(v: VenueState, initial: real): real {
    initial + SumOver(v.positions.Keys, s => Realized(v, s)) + SumOver(v.positions.Keys, s => Unrealized(v, s))
  }

  /** The price the account marks a symbol at. */
  function Mark(v: VenueState, symbol: Symbol): real {
    MarkPrice(v, symbol, v.PositionOf(symbol).entry)
  }

  lemma SymbolEquity(v: VenueState, symbol: Symbol)
    ensures Realized(v, symbol) + Unrealized(v, symbol) == Equity(v.PositionOf(symbol), Mark(v, symbol))
  {
    hide MarkPrice, Abs;
    MarkedProfit(v.PositionOf(symbol), Mark(v, symbol));
  }

  /** Long or short, the open profit is the marked price difference times the net quantity. */
  lemma MarkedProfit(p: Position, mark: real)
    ensures (if p.netQty > 0.0 then (mark - p.entry) * p.netQty else (p.entry - mark) * Abs(p.netQty))
            == (mark - p.entry) * p.netQty
  {
    if p.netQty <= 0.0 {
      assert Abs(p.netQty) == -p.netQty;
    }
  }

  /** Inventory of a symbol at the account's mark, counted from the orders. */
  function Inventory(v: VenueState, symbol: Symbol): real {
    Product(Exposure(v.all, symbol, v.nextOid), Mark(v, symbol))
  }

  /**
    Conservation: the balance is the initial balance, plus the cash every fill ever brought in,
    plus what the orders bought and did not sell, marked to market.
   */
  lemma {:induction false} BalanceConserved(v: VenueState, fills: seq<Fill>, initial: real)
    requires Consistent(v) && Explained(v, fills)
    ensures Balance(v, initial)
            == initial + Cash(fills) + SumOver(v.positions.Keys, s => Inventory(v, s))
  {
    var symbols := v.positions.Keys;
    var realized, unrealized := s => Realized(v, s), s => Unrealized(v, s);
    var equity, cash := s => Realized(v, s) + Unrealized(v, s), s => Cash(OnSymbol(fills, s));
    var inventory := s => Inventory(v, s);
    forall s
      ensures equity(s) == cash(s) + inventory(s)
    {
      SymbolConserved(v, fills, s);
    }
    SumsAdd(symbols, realized, unrealized, equity);
    SumsAdd(symbols, cash, inventory, equity);
    CashBySymbol(fills, symbols);
  }

  lemma {:induction false} SymbolConserved(v: VenueState, fills: seq<Fill>, s: Symbol)
    requires Consistent(v) && Explained(v, fills)
    ensures Realized(v, s) + Unrealized(v, s) == Cash(OnSymbol(fills, s)) + Inventory(v, s)
  {
    hide Realized, Unrealized, Mark, Exposure, Cash, Fold;
    SymbolEquity(v, s);
    assert v.PositionOf(s) == Fold(OnSymbol(fills, s));
    assert v.PositionOf(s).netQty == Exposure(v.all, s, v.nextOid);
    MarkToMarket(OnSymbol(fills, s), Mark(v, s));
  }

  lemma {:induction false} CashBySymbol(fills: seq<Fill>, symbols: set<Symbol>)
    requires forall i :: 0 <= i < |fills| ==> fills[i].symbol in symbols
    ensures SumOver(symbols, s => Cash(OnSymbol(fills, s))) == Cash(fills)
  {
    hide CashOf;
    var whole := s => Cash(OnSymbol(fills, s));
    if |fills| == 0 {
      SumZero(symbols, whole);
    } else {
      var before, f := fills[..|fills| - 1], fills[|fills| - 1];
      var part := s => Cash(OnSymbol(before, s));
      CashBySymbol(before, symbols);
      forall s
        ensures whole(s) == part(s) + (if s == f.symbol then CashOf(f) else 0.0)
      {
        if s == f.symbol {
          var listed := OnSymbol(fills, s);
          assert listed[..|listed| - 1] == OnSymbol(before, s);
        } else {
          assert OnSymbol(fills, s) == OnSymbol(before, s);
        }
      }
      SumTakes(symbols, whole, f.symbol);
      SumTakes(symbols, part, f.symbol);
      SumsAdd(symbols - {f.symbol}, part, s => 0.0, whole);
      SumZero(symbols - {f.symbol}, s => 0.0);
    }
  }

  // ----- What a mark is, in the books' own prices

  /**
    The price a symbol is to be marked at: half way between the first levels of its book, the first
    level of the only side there is, or what the position was entered at.
   */
  predicate MarkedAt(v: VenueState, symbol: Symbol, price: real) {
    && (symbol in v.books && |v.books[symbol].bids| > 0 && |v.books[symbol].asks| > 0 ==>
          price - v.books[symbol].bids[0].price == v.books[symbol].asks[0].price - price)
    && (symbol in v.books && |v.books[symbol].bids| > 0 && |v.books[symbol].asks| == 0 ==>
          price == v.books[symbol].bids[0].price)
    && (symbol in v.books && |v.books[symbol].bids| == 0 && |v.books[symbol].asks| > 0 ==>
          price == v.books[symbol].asks[0].price)
    && (symbol !in v.books || (|v.books[symbol].bids| == 0 && |v.books[symbol].asks| == 0) ==>
          price == (if symbol in v.positions then v.positions[symbol].entry else 0.0))
  }

  /** The account's mark is that price and no other; with both sides there it lies between them. */
  lemma MarkIsMid(v: VenueState, symbol: Symbol, price: real)
    ensures MarkedAt(v, symbol, price) <==> price == Mark(v, symbol)
    ensures symbol in v.books && |v.books[symbol].bids| > 0 && |v.books[symbol].asks| > 0 ==>
              var bid, ask := v.books[symbol].bids[0].price, v.books[symbol].asks[0].price;
              Min(bid, ask) <= Mark(v, symbol) <= bid + ask - Min(bid, ask)
  {
  }

  /**
    The balance law with the marks spelled out: at the prices of the books, as `MarkedAt` says, the total
    is the initial balance, the cash of every fill, and the value of what the orders bought and did not sell.
   */
  lemma {:induction false} BalanceAtTheBooks(v: VenueState, fills: seq<Fill>, initial: real, marks: Symbol -> real)
    requires Consistent(v) && Explained(v, fills)
    requires forall s :: s in v.positions ==> MarkedAt(v, s, marks(s))
    ensures Balance(v, initial)
            == initial + Cash(fills) + SumOver(v.positions.Keys, s => Exposure(v.all, s, v.nextOid) * marks(s))
  {
    hide Consistent, Explained, Exposure, Cash, Balance, MarkedAt, Mark;
    BalanceConserved(v, fills, initial);
    var inventory, valued := s => Inventory(v, s), s => Exposure(v.all, s, v.nextOid) * marks(s);
    forall s | s in v.positions.Keys
      ensures inventory(s) == valued(s)
    {
      MarkIsMid(v, s, marks(s));
    }
    SumsCompare(v.positions.Keys, inventory, valued);
    SumsCompare(v.positions.Keys, valued, inventory);
  }

  /** So it is in every state any interleaving can reach. */
  lemma {:induction false} ReachableBalanceAtTheBooks(
      e: FillEngine, actions: seq<Action>, initial: real, marks: Symbol -> real)
    requires e.Sane() && forall i :: 0 <= i < |actions| ==> ActionOk(actions[i])
    requires var v := Exec(EMPTY_EXCHANGE, e, actions).venue; forall s :: s in v.positions ==> MarkedAt(v, s, marks(s))
    ensures var x := Exec(EMPTY_EXCHANGE, e, actions);
            Balance(x.venue, initial)
            == initial + Cash(x.fills)
               + SumOver(x.venue.positions.Keys, s => Exposure(x.venue.all, s, x.venue.nextOid) * marks(s))
  {
    hide Exec, Consistent, Explained, Exposure, Cash, Balance, MarkedAt, SumOver;
    VenueSafety(e, actions);
    var x := Exec(EMPTY_EXCHANGE, e, actions);
    BalanceAtTheBooks(x.venue, x.fills, initial, marks);
  }

  /** In every state any interleaving can reach, the balance conserves. */
  lemma {:induction false} ReachableBalance(e: FillEngine, actions: seq<Action>, initial: real)
    requires e.Sane() && forall i :: 0 <= i < |actions| ==> ActionOk(actions[i])
    ensures var x := Exec(EMPTY_EXCHANGE, e, actions);
            Balance(x.venue, initial)
            == initial + Cash(x.fills) + SumOver(x.venue.positions.Keys, s => Inventory(x.venue, s))
  {
    VenueSafety(e, actions);
    var x := Exec(EMPTY_EXCHANGE, e, actions);
    BalanceConserved(x.venue, x.fills, initial);
  }

  /** Equity of all positions at prices of one's own choice, symbol by symbol. */
  ghost function EquityAt(v: VenueState, marks: Symbol -> real): real {
    SumOver(v.positions.Keys, s => Equity(v.PositionOf(s), marks(s)))
  }

  // ----- Rounding drift of the account

  function Errors(n: nat, err: nat -> real): seq<real> {
    seq(n, i requires 0 <= i < n => err(i))
  }

  /** The position of a symbol after `fills` when its `k`-th fill's division is off by `err(k)`. */
  function RoundedPosition(fills: seq<Fill>, symbol: Symbol, err: nat -> real): Position {
    FoldRounded(OnSymbol(fills, symbol), Errors(|OnSymbol(fills, symbol)|, err))
  }

  function RoundedNotionals(fills: seq<Fill>, symbol: Symbol, err: nat -> real): real {
    AddNotionals(OnSymbol(fills, symbol), Errors(|OnSymbol(fills, symbol)|, err))
  }

  /**
    In every state any interleaving can reach, the equity of all symbols kept with divisions off by
    at most `u` differs from the exact equity, at any marks, by at most `u` times the notionals that
    went through a division, summed over the symbols.
   */
  lemma {:induction false} AccountDrift(
      e: FillEngine, actions: seq<Action>, err: Symbol -> (nat -> real), u: real, marks: Symbol -> real)
    requires e.Sane() && forall i :: 0 <= i < |actions| ==> ActionOk(actions[i])
    requires forall s, k: nat :: -u <= err(s)(k) <= u
    ensures var x := Exec(EMPTY_EXCHANGE, e, actions);
            var symbols := x.venue.positions.Keys;
            Abs(SumOver(symbols, s => Equity(RoundedPosition(x.fills, s, err(s)), marks(s))) - EquityAt(x.venue, marks))
            <= Allowance(u, SumOver(symbols, s => RoundedNotionals(x.fills, s, err(s))))
  {
    hide Exec, SumOver, RoundedPosition, RoundedNotionals, Equity, Allowance;
    VenueSafety(e, actions);
    var x := Exec(EMPTY_EXCHANGE, e, actions);
    var rounded := (s: Symbol) => Equity(RoundedPosition(x.fills, s, err(s)), marks(s));
    var exact := (s: Symbol) => Equity(x.venue.PositionOf(s), marks(s));
    var notionals := (s: Symbol) => RoundedNotionals(x.fills, s, err(s));
    forall s
      ensures Abs(rounded(s) - exact(s)) <= Allowance(u, notionals(s))
    {
      SymbolDrift(x, s, err(s), u, marks(s));
    }
    SumsDrift(x.venue.positions.Keys, rounded, exact, notionals, u);
  }

  lemma {:induction false} SymbolDrift(x: Exchange, s: Symbol, err: nat -> real, u: real, mark: real)
    requires Safe(x) && forall k: nat :: -u <= err(k) <= u
    ensures Abs(Equity(RoundedPosition(x.fills, s, err), mark) - Equity(x.venue.PositionOf(s), mark))
            <= Allowance(u, RoundedNotionals(x.fills, s, err))
  {
    hide Consistent, OnSymbol, Fold, FoldRounded, AddNotionals, Equity, Cash, Net, Allowance;
    var fills := OnSymbol(x.fills, s);
    assert x.venue.PositionOf(s) == Fold(fills);
    MarkToMarket(fills, mark);
    DriftBound(fills, Errors(|fills|, err), u, mark);
    var rounded := FoldRounded(fills, Errors(|fills|, err));
    assert Gap(rounded, fills, mark) == Equity(rounded, mark) - Equity(Fold(fills), mark);
  }

  lemma {:induction false} SumsDrift(
      symbols: set<Symbol>, f: Symbol -> real, g: Symbol -> real, h: Symbol -> real, u: real)
    requires forall s :: s in symbols ==> Abs(f(s) - g(s)) <= Allowance(u, h(s))
    ensures Abs(SumOver(symbols, f) - SumOver(symbols, g)) <= Allowance(u, SumOver(symbols, h))
  {
    hide SumOver;
    if symbols == {} {
      SumOfNone(f);
      SumOfNone(g);
      SumOfNone(h);
    } else {
      var s :| s in symbols;
      SumTakes(symbols, f, s);
      SumTakes(symbols, g, s);
      SumTakes(symbols, h, s);
      SumsDrift(symbols - {s}, f, g, h, u);
      assert Allowance(u, h(s) + SumOver(symbols - {s}, h))
          == Allowance(u, h(s)) + Allowance(u, SumOver(symbols - {s}, h));
    }
  }

  // ----- Realism dominance

  predicate SortedAction(a: Action) {
    a.BookArrives? ==> SortedBook(a.book)
  }

  /** An attempt on the working order `oid`: if it is a market order on the book's symbol, the book is deep enough. */
  predicate DeepAttempt(v: VenueState, oid: OrderId, book: Book) {
    oid in v.open && v.open[oid].kind == Market && v.open[oid].symbol == book.symbol ==>
      DeepFor(book, v.open[oid].side, v.open[oid].quantity - v.open[oid].filled)
  }

  /** The order a segment tries to fill, if any, finds depth for what is left of it in the book it is tried on. */
  predicate WithinDepth(x: Exchange, a: Action) {
    a.Resume? && 0 <= a.index < |x.tasks| ==>
      match x.tasks[a.index]
      case FillOnAck(oid, symbol) => symbol in x.venue.books ==> DeepAttempt(x.venue, oid, x.venue.books[symbol])
      case FillOnBook(pending, book) => |pending| > 0 ==> DeepAttempt(x.venue, pending[0], book)
  }

  /** Every attempt of the run does, on the venue with engine `e`. */
  ghost predicate AllWithinDepth(e: FillEngine, actions: seq<Action>) {
    forall k :: 0 <= k < |actions| ==> WithinDepth(Exec(EMPTY_EXCHANGE, e, actions[..k]), actions[k])
  }

  /** The same order, except that it may have been filled at another price. */
  predicate SameButPrice(a: Order, b: Order) {
    a == b.(averagePrice := a.averagePrice)
  }

  ghost predicate SortedBooks(x: Exchange) {
    && (forall s :: s in x.venue.books ==> SortedBook(x.venue.books[s]))
    && (forall i :: 0 <= i < |x.tasks| && x.tasks[i].FillOnBook? ==> SortedBook(x.tasks[i].book))
  }

  /** `x` has the same orders, books and suspended operations as `y`, and positions no better. */
  ghost predicate NoBetter(x: Exchange, y: Exchange) {
    && x.venue.nextOid == y.venue.nextOid
    && x.venue.books == y.venue.books
    && x.tasks == y.tasks
    && x.venue.all.Keys == y.venue.all.Keys
    && (forall k :: k in x.venue.all ==> SameButPrice(x.venue.all[k], y.venue.all[k]))
    && |x.fills| == |y.fills|
    && (forall i :: 0 <= i < |x.fills| ==> WorseFill(x.fills[i], y.fills[i]))
    && x.venue.positions.Keys == y.venue.positions.Keys
    && (forall s :: Worse(x.venue.PositionOf(s), y.venue.PositionOf(s)))
  }

  lemma {:induction false} AttemptDominates(
      x: Exchange, y: Exchange, b: FillEngine, i: FillEngine, oid: OrderId, book: Book, now: Time)
    requires b.BookAware? && i.Immediate? && b.Sane()
    requires Safe(x) && Safe(y) && NoBetter(x, y) && SortedBooks(x)
    requires PositiveBook(book) && SortedBook(book)
    ensures var f, g := Attempt(x.venue, b, oid, book, now), Attempt(y.venue, i, oid, book, now);
            && (f.Some? <==> g.Some?)
            && (f.None? ==> DeepAttempt(x.venue, oid, book))
            && (f.Some? ==>
                  && oid in x.venue.open && oid in y.venue.open
                  && (f.value.quantity == g.value.quantity <==> DeepAttempt(x.venue, oid, book))
                  && (DeepAttempt(x.venue, oid, book) ==> WorseFill(f.value, g.value))
                  && f.value.timestamp == g.value.timestamp
                  && FillFor(x.venue.open[oid], f.value) && FillFor(y.venue.open[oid], g.value))
  {
    hide Exposure, Traded, TradedNotional, Depth, Explained, ExposureOk;
    SameOpen(x, y);
    if oid in x.venue.open {
      var o, p := x.venue.open[oid], y.venue.open[oid];
      assert OrderOk(x.venue.all[oid]) && OrderOk(y.venue.all[oid]);
      PriceBlind(i, o, p, book, now);
      BookAwareIsWorse(b, i, o, book, now);
      FillIsSane(b, o, book, now);
      FillIsSane(i, p, book, now);
    }
  }

  lemma {:induction false} FillStepDominates(
      x: Exchange, y: Exchange, b: FillEngine, i: FillEngine, oid: OrderId, book: Book, now: Time)
    requires b.BookAware? && i.Immediate? && b.Sane()
    requires Safe(x) && Safe(y) && NoBetter(x, y) && SortedBooks(x)
    requires PositiveBook(book) && SortedBook(book) && DeepAttempt(x.venue, oid, book)
    ensures NoBetter(FillStep(x, b, oid, book, now), FillStep(y, i, oid, book, now))
    ensures SortedBooks(FillStep(x, b, oid, book, now))
  {
    hide Attempt, Safe, ApplyFill, NewAverage, Worse, SortedBook;
    AttemptDominates(x, y, b, i, oid, book, now);
    var f, g := Attempt(x.venue, b, oid, book, now), Attempt(y.venue, i, oid, book, now);
    if f.Some? {
      SameOpen(x, y);
      KeysAgree(x, oid);
      KeysAgree(y, oid);
      var x', y' := FillStep(x, b, oid, book, now), FillStep(y, i, oid, book, now);
      var symbol := f.value.symbol;
      WorseStays(x.venue.PositionOf(symbol), y.venue.PositionOf(symbol), f.value, g.value);
      forall s
        ensures Worse(x'.venue.PositionOf(s), y'.venue.PositionOf(s))
      {
        assert Worse(x.venue.PositionOf(s), y.venue.PositionOf(s));
      }
      assert SameButPrice(x'.venue.all[oid], y'.venue.all[oid]);
    }
  }

  lemma KeysAgree(x: Exchange, oid: OrderId)
    requires Safe(x) && oid in x.venue.open
    ensures oid in x.venue.all && x.venue.open[oid] == x.venue.all[oid] && x.venue.all[oid].orderId == oid
  {
  }

  /** An engine does not look at the average price an order already has. */
  lemma PriceBlind(e: FillEngine, o: Order, p: Order, book: Book, now: Time)
    requires SameButPrice(o, p)
    ensures e.TryFill(o, book, now) == e.TryFill(p, book, now)
  {
    hide Walk, Fee;
  }

  lemma {:induction false} StepDominates(
      x: Exchange, y: Exchange, b: FillEngine, i: FillEngine, a: Action)
    requires b.BookAware? && i.Immediate? && b.Sane()
    requires ActionOk(a) && SortedAction(a) && WithinDepth(x, a)
    requires Safe(x) && Safe(y) && NoBetter(x, y) && SortedBooks(x)
    ensures NoBetter(Step(x, b, a), Step(y, i, a))
    ensures SortedBooks(Step(x, b, a))
  {
    hide Safe, NoBetter, SortedBooks, Accept, CancelOrder, StoreBook, IdsOn, Continue, SortedBook;
    match a
    case Place(req, now) => PlaceDominates(x, y, b, i, req, now);
    case Cancel(oid, now) => CancelDominates(x, y, oid, now);
    case BookArrives(book) => BookDominates(x, y, b, i, book);
    case Resume(index, now) =>
      SameTasks(x, y);
      if 0 <= index < |x.tasks| {
        ResumeDominates(x, y, b, i, index, now);
      }
  }

  lemma SameTasks(x: Exchange, y: Exchange)
    requires NoBetter(x, y)
    ensures x.tasks == y.tasks && x.venue.books == y.venue.books && x.venue.nextOid == y.venue.nextOid
  {
  }

  lemma {:induction false} PlaceDominates(
      x: Exchange, y: Exchange, b: FillEngine, i: FillEngine, req: OrderRequest, now: Time)
    requires Safe(x) && Safe(y) && NoBetter(x, y) && SortedBooks(x)
    ensures var x', y' := Step(x, b, Place(req, now)), Step(y, i, Place(req, now));
            NoBetter(x', y') && SortedBooks(x')
  {
    hide Safe, NoBetter, SortedBooks, SortedBook;
    AcceptDominates(x, y, req, now);
    SameTasks(x, y);
    var v, w := Accept(x.venue, req, now), Accept(y.venue, req, now);
    if InitialStatus(x.venue, req) == Acked {
      var tasks := x.tasks + [FillOnAck(v.nextOid, req.symbol)];
      BooksOfTasks(x);
      Retask(x.(venue := v), y.(venue := w), tasks);
    }
  }

  lemma {:induction false} BookDominates(
      x: Exchange, y: Exchange, b: FillEngine, i: FillEngine, book: Book)
    requires Safe(x) && Safe(y) && NoBetter(x, y) && SortedBooks(x) && SortedBook(book)
    ensures var x', y' := Step(x, b, BookArrives(book)), Step(y, i, BookArrives(book));
            NoBetter(x', y') && SortedBooks(x')
  {
    hide Safe, NoBetter, SortedBooks, IdsOn, SortedBook, StoreBook;
    SameTasks(x, y);
    SameOpen(x, y);
    SameIds(x.venue.open, y.venue.open, Some(book.symbol));
    BooksOfTasks(x);
    StoreDominates(x, y, book);
    var tasks := x.tasks + [FillOnBook(IdsOn(x.venue.open, Some(book.symbol)), book)];
    Retask(x.(venue := StoreBook(x.venue, book)), y.(venue := StoreBook(y.venue, book)), tasks);
  }

  lemma StoreDominates(x: Exchange, y: Exchange, book: Book)
    requires NoBetter(x, y) && SortedBooks(x) && SortedBook(book)
    ensures var x', y' := x.(venue := StoreBook(x.venue, book)), y.(venue := StoreBook(y.venue, book));
            NoBetter(x', y') && SortedBooks(x')
  {
    hide SortedBook, Worse;
    forall s
      ensures Worse(StoreBook(x.venue, book).PositionOf(s), StoreBook(y.venue, book).PositionOf(s))
    {
      assert Worse(x.venue.PositionOf(s), y.venue.PositionOf(s));
    }
  }

  lemma BooksOfTasks(x: Exchange)
    requires SortedBooks(x)
    ensures forall i :: 0 <= i < |x.tasks| && x.tasks[i].FillOnBook? ==> SortedBook(x.tasks[i].book)
    ensures forall s :: s in x.venue.books ==> SortedBook(x.venue.books[s])
  {
    hide SortedBook;
  }

  lemma {:induction false} ResumeDominates(
      x: Exchange, y: Exchange, b: FillEngine, i: FillEngine, index: int, now: Time)
    requires b.BookAware? && i.Immediate? && b.Sane()
    requires Safe(x) && Safe(y) && NoBetter(x, y) && SortedBooks(x)
    requires 0 <= index < |x.tasks| && x.tasks == y.tasks && WithinDepth(x, Resume(index, now))
    ensures NoBetter(Continue(x, b, index, now), Continue(y, i, index, now))
    ensures SortedBooks(Continue(x, b, index, now))
  {
    hide Safe, NoBetter, SortedBooks, SortedBook, FillStep;
    TaskBooks(x);
    BooksOfTasks(x);
    SameTasks(x, y);
    var others := x.tasks[..index] + x.tasks[index + 1..];
    match x.tasks[index]
    case FillOnAck(oid, symbol) =>
      if symbol in x.venue.books {
        FilledThenRetasked(x, y, b, i, oid, x.venue.books[symbol], now, others);
      } else {
        Retask(x, y, others);
      }
    case FillOnBook(pending, book) =>
      if |pending| > 0 {
        var rest := x.tasks[index := FillOnBook(pending[1..], book)];
        FilledThenRetasked(x, y, b, i, pending[0], book, now, rest);
      } else {
        Retask(x, y, others);
      }
  }

  lemma {:induction false} FilledThenRetasked(
      x: Exchange, y: Exchange, b: FillEngine, i: FillEngine, oid: OrderId, book: Book, now: Time,
      tasks: seq<Task>)
    requires b.BookAware? && i.Immediate? && b.Sane()
    requires Safe(x) && Safe(y) && NoBetter(x, y) && SortedBooks(x)
    requires PositiveBook(book) && SortedBook(book) && DeepAttempt(x.venue, oid, book)
    requires forall k :: 0 <= k < |tasks| && tasks[k].FillOnBook? ==> SortedBook(tasks[k].book)
    ensures var x' := FillStep(x, b, oid, book, now).(tasks := tasks);
            var y' := FillStep(y, i, oid, book, now).(tasks := tasks);
            NoBetter(x', y') && SortedBooks(x')
  {
    hide Safe, NoBetter, SortedBooks, SortedBook, FillStep;
    FillStepDominates(x, y, b, i, oid, book, now);
    Retask(FillStep(x, b, oid, book, now), FillStep(y, i, oid, book, now), tasks);
  }

  lemma TaskBooks(x: Exchange)
    requires Safe(x)
    ensures TasksOk(x.tasks)
    ensures forall s :: s in x.venue.books ==> PositiveBook(x.venue.books[s])
  {
  }

  lemma Retask(x: Exchange, y: Exchange, tasks: seq<Task>)
    requires NoBetter(x, y) && SortedBooks(x)
    requires forall i :: 0 <= i < |tasks| && tasks[i].FillOnBook? ==> SortedBook(tasks[i].book)
    ensures NoBetter(x.(tasks := tasks), y.(tasks := tasks)) && SortedBooks(x.(tasks := tasks))
  {
    hide SortedBook;
    forall s
      ensures Worse(x.(tasks := tasks).venue.PositionOf(s), y.(tasks := tasks).venue.PositionOf(s))
    {
      assert Worse(x.venue.PositionOf(s), y.venue.PositionOf(s));
    }
  }

  lemma {:induction false} AcceptDominates(x: Exchange, y: Exchange, req: OrderRequest, now: Time)
    requires Safe(x) && Safe(y) && NoBetter(x, y) && SortedBooks(x)
    ensures var v, w := Accept(x.venue, req, now), Accept(y.venue, req, now);
            && NoBetter(x.(venue := v), y.(venue := w)) && SortedBooks(x.(venue := v))
            && InitialStatus(x.venue, req) == InitialStatus(y.venue, req)
  {
    hide Safe, SortedBook;
    SameOpen(x, y);
    var v, w := Accept(x.venue, req, now), Accept(y.venue, req, now);
    forall s
      ensures Worse(v.PositionOf(s), w.PositionOf(s))
    {
      assert Worse(x.venue.PositionOf(s), y.venue.PositionOf(s));
    }
  }

  lemma {:induction false} CancelDominates(x: Exchange, y: Exchange, oid: OrderId, now: Time)
    requires Safe(x) && Safe(y) && NoBetter(x, y) && SortedBooks(x)
    ensures var v, w := CancelOrder(x.venue, oid, now), CancelOrder(y.venue, oid, now);
            NoBetter(x.(venue := v), y.(venue := w)) && SortedBooks(x.(venue := v))
  {
    hide Safe, SortedBook;
    SameOpen(x, y);
    if oid in x.venue.open {
      KeysAgree(x, oid);
      KeysAgree(y, oid);
    }
    var v, w := CancelOrder(x.venue, oid, now), CancelOrder(y.venue, oid, now);
    forall s
      ensures Worse(v.PositionOf(s), w.PositionOf(s))
    {
      assert Worse(x.venue.PositionOf(s), y.venue.PositionOf(s));
    }
  }

  lemma SameOpen(x: Exchange, y: Exchange)
    requires Safe(x) && Safe(y) && NoBetter(x, y)
    ensures x.venue.open.Keys == y.venue.open.Keys
    ensures forall k :: k in x.venue.open ==> SameButPrice(x.venue.open[k], y.venue.open[k])
  {
    forall k
      ensures k in x.venue.open <==> k in y.venue.open
    {
      if k in x.venue.all {
        assert SameButPrice(x.venue.all[k], y.venue.all[k]);
      }
    }
  }

  lemma SameIds(a: map<OrderId, Order>, b: map<OrderId, Order>, symbol: Option<Symbol>)
    requires a.Keys == b.Keys && forall k :: k in a ==> SameButPrice(a[k], b[k])
    ensures IdsOn(a, symbol) == IdsOn(b, symbol)
  {
    var chosenA := set k | k in a && (symbol.Some? ==> a[k].symbol == symbol.value);
    var chosenB := set k | k in b && (symbol.Some? ==> b[k].symbol == symbol.value);
    forall k
      ensures k in chosenA <==> k in chosenB
    {
      assert k in a ==> SameButPrice(a[k], b[k]);
    }
    assert chosenA == chosenB;
  }

  /** The same fills of the same orders, prices and fees apart. */
  predicate SameTrades(x: Exchange, y: Exchange) {
    && |x.fills| == |y.fills|
    && forall i :: 0 <= i < |x.fills| ==>
         x.fills[i].orderId == y.fills[i].orderId && x.fills[i].quantity == y.fills[i].quantity
  }

  /**
    Realism dominance: run the same calls, interleaved the same way, on two venues, one per engine,
    over sorted books.  They trade the same quantities exactly if every market order, whenever it was
    tried on a book, found depth there for what was left of it.  Then orders, statuses and positions
    agree, and the book-aware account never shows the larger balance, nor the larger equity at any
    other marks.
   */
  lemma {:induction false} RealismDominance(b: FillEngine, i: FillEngine, actions: seq<Action>, initial: real)
    requires b.BookAware? && i.Immediate? && b.Sane()
    requires forall k :: 0 <= k < |actions| ==> ActionOk(actions[k]) && SortedAction(actions[k])
    ensures var x, y := Exec(EMPTY_EXCHANGE, b, actions), Exec(EMPTY_EXCHANGE, i, actions);
            && (SameTrades(x, y) <==> AllWithinDepth(b, actions))
            && (SameTrades(x, y) ==>
                  && NoBetter(x, y)
                  && Balance(x.venue, initial) <= Balance(y.venue, initial)
                  && forall marks: Symbol -> real :: EquityAt(x.venue, marks) <= EquityAt(y.venue, marks))
  {
    hide Exec, AllWithinDepth, Balance, EquityAt;
    DepthDecides(b, i, actions);
    var x, y := Exec(EMPTY_EXCHANGE, b, actions), Exec(EMPTY_EXCHANGE, i, actions);
    if AllWithinDepth(b, actions) {
      NoBetterTrades(x, y);
      NoBetterBalance(x, y, initial);
      forall marks: Symbol -> real
        ensures EquityAt(x.venue, marks) <= EquityAt(y.venue, marks)
      {
        NoBetterEquity(x, y, marks);
      }
    }
  }

  lemma NoBetterTrades(x: Exchange, y: Exchange)
    requires NoBetter(x, y)
    ensures SameTrades(x, y)
  {
    forall i | 0 <= i < |x.fills|
      ensures x.fills[i].orderId == y.fills[i].orderId && x.fills[i].quantity == y.fills[i].quantity
    {
      assert WorseFill(x.fills[i], y.fills[i]);
    }
  }

  /** A fill present in both runs has different quantities: nothing that follows can take that back. */
  predicate Diverged(x: Exchange, y: Exchange) {
    exists i :: 0 <= i < |x.fills| && i < |y.fills| && x.fills[i].quantity != y.fills[i].quantity
  }

  lemma {:induction false} DepthDecides(b: FillEngine, i: FillEngine, actions: seq<Action>)
    requires b.BookAware? && i.Immediate? && b.Sane()
    requires forall k :: 0 <= k < |actions| ==> ActionOk(actions[k]) && SortedAction(actions[k])
    ensures var x, y := Exec(EMPTY_EXCHANGE, b, actions), Exec(EMPTY_EXCHANGE, i, actions);
            if AllWithinDepth(b, actions) then NoBetter(x, y) && SortedBooks(x) else Diverged(x, y)
  {
    hide NoBetter, SortedBooks, Diverged, Step, WithinDepth, Safe, AllWithinDepth;
    if |actions| == 0 {
      EmptyDominates();
      NoAttempt(b);
    } else {
      var before, a := actions[..|actions| - 1], actions[|actions| - 1];
      DepthDecides(b, i, before);
      VenueSafety(b, before);
      VenueSafety(i, before);
      AttemptsUpTo(b, actions);
      var x, y := Exec(EMPTY_EXCHANGE, b, before), Exec(EMPTY_EXCHANGE, i, before);
      if !AllWithinDepth(b, before) {
        StepExtends(x, b, a);
        StepExtends(y, i, a);
        StaysDiverged(x, y, Step(x, b, a), Step(y, i, a));
      } else if WithinDepth(x, a) {
        StepDominates(x, y, b, i, a);
      } else {
        StepDiverges(x, y, b, i, a);
      }
    }
  }

  lemma EmptyDominates()
    ensures NoBetter(EMPTY_EXCHANGE, EMPTY_EXCHANGE) && SortedBooks(EMPTY_EXCHANGE)
  {
  }

  lemma NoAttempt(e: FillEngine)
    ensures AllWithinDepth(e, [])
  {
  }

  lemma AttemptsUpTo(e: FillEngine, actions: seq<Action>)
    requires |actions| > 0
    ensures var before, a := actions[..|actions| - 1], actions[|actions| - 1];
            AllWithinDepth(e, actions) <==> AllWithinDepth(e, before) && WithinDepth(Exec(EMPTY_EXCHANGE, e, before), a)
  {
    hide Exec, WithinDepth;
    var before := actions[..|actions| - 1];
    forall k | 0 <= k < |before|
      ensures before[..k] == actions[..k] && before[k] == actions[k]
    {
    }
    if AllWithinDepth(e, actions) {
      forall k | 0 <= k < |before|
        ensures WithinDepth(Exec(EMPTY_EXCHANGE, e, before[..k]), before[k])
      {
        assert WithinDepth(Exec(EMPTY_EXCHANGE, e, actions[..k]), actions[k]);
      }
    }
    if AllWithinDepth(e, before) && WithinDepth(Exec(EMPTY_EXCHANGE, e, before), actions[|actions| - 1]) {
      forall k | 0 <= k < |actions|
        ensures WithinDepth(Exec(EMPTY_EXCHANGE, e, actions[..k]), actions[k])
      {
        if k < |before| {
          assert WithinDepth(Exec(EMPTY_EXCHANGE, e, before[..k]), before[k]);
        }
      }
    }
  }

  lemma StaysDiverged(x: Exchange, y: Exchange, x': Exchange, y': Exchange)
    requires Diverged(x, y) && Extends(x, x') && Extends(y, y')
    ensures Diverged(x', y')
  {
    var i :| 0 <= i < |x.fills| && i < |y.fills| && x.fills[i].quantity != y.fills[i].quantity;
    assert x'.fills[i] == x'.fills[..|x.fills|][i] && y'.fills[i] == y'.fills[..|y.fills|][i];
  }

  /** A market order tried on too shallow a book is filled by both engines, by one of them only in part. */
  lemma {:induction false} StepDiverges(x: Exchange, y: Exchange, b: FillEngine, i: FillEngine, a: Action)
    requires b.BookAware? && i.Immediate? && b.Sane()
    requires Safe(x) && Safe(y) && NoBetter(x, y) && SortedBooks(x) && !WithinDepth(x, a)
    ensures Diverged(Step(x, b, a), Step(y, i, a))
  {
    hide Safe, NoBetter, SortedBooks, SortedBook, FillStep, DeepAttempt, Diverged;
    SameTasks(x, y);
    TaskBooks(x);
    BooksOfTasks(x);
    match x.tasks[a.index]
    case FillOnAck(oid, symbol) =>
      FillDiverges(x, y, b, i, oid, x.venue.books[symbol], a.now, x.tasks[..a.index] + x.tasks[a.index + 1..]);
    case FillOnBook(pending, book) =>
      FillDiverges(x, y, b, i, pending[0], book, a.now, x.tasks[a.index := FillOnBook(pending[1..], book)]);
  }

  lemma {:induction false} FillDiverges(
      x: Exchange, y: Exchange, b: FillEngine, i: FillEngine, oid: OrderId, book: Book, now: Time, tasks: seq<Task>)
    requires b.BookAware? && i.Immediate? && b.Sane()
    requires Safe(x) && Safe(y) && NoBetter(x, y) && SortedBooks(x)
    requires PositiveBook(book) && SortedBook(book) && !DeepAttempt(x.venue, oid, book)
    ensures Diverged(FillStep(x, b, oid, book, now).(tasks := tasks), FillStep(y, i, oid, book, now).(tasks := tasks))
  {
    hide Safe, SortedBooks, SortedBook, DeepAttempt, Attempt;
    AttemptDominates(x, y, b, i, oid, book, now);
    var x', y' := FillStep(x, b, oid, book, now), FillStep(y, i, oid, book, now);
    var last := |x.fills|;
    assert x'.fills[last].quantity != y'.fills[last].quantity;
  }

  lemma {:induction false} NoBetterEquity(x: Exchange, y: Exchange, marks: Symbol -> real)
    requires NoBetter(x, y)
    ensures EquityAt(x.venue, marks) <= EquityAt(y.venue, marks)
  {
    hide Equity, Worse, SumOver;
    var f := (s: Symbol) => Equity(x.venue.PositionOf(s), marks(s));
    var g := (s: Symbol) => Equity(y.venue.PositionOf(s), marks(s));
    forall s
      ensures f(s) <= g(s)
    {
      assert Worse(x.venue.PositionOf(s), y.venue.PositionOf(s));
      WorseIsPoorer(x.venue.PositionOf(s), y.venue.PositionOf(s), marks(s));
    }
    SumsCompare(x.venue.positions.Keys, f, g);
  }

  lemma {:induction false} NoBetterBalance(x: Exchange, y: Exchange, initial: real)
    requires NoBetter(x, y)
    ensures Balance(x.venue, initial) <= Balance(y.venue, initial)
  {
    var symbols := x.venue.positions.Keys;
    var f, g := s => Realized(x.venue, s) + Unrealized(x.venue, s), s => Realized(y.venue, s) + Unrealized(y.venue, s);
    forall s
      ensures f(s) <= g(s)
    {
      SymbolNoBetter(x, y, s);
    }
    SumsCompare(symbols, f, g);
    SumsAdd(symbols, s => Realized(x.venue, s), s => Unrealized(x.venue, s), f);
    SumsAdd(symbols, s => Realized(y.venue, s), s => Unrealized(y.venue, s), g);
  }

  lemma {:induction false} SymbolNoBetter(x: Exchange, y: Exchange, s: Symbol)
    requires NoBetter(x, y)
    ensures Realized(x.venue, s) + Unrealized(x.venue, s) <= Realized(y.venue, s) + Unrealized(y.venue, s)
  {
    hide Realized, Unrealized, Equity;
    var p, q := x.venue.PositionOf(s), y.venue.PositionOf(s);
    assert Worse(p, q);
    SymbolEquity(x.venue, s);
    SymbolEquity(y.venue, s);
    if Mark(x.venue, s) == Mark(y.venue, s) {
      WorseIsPoorer(p, q, Mark(x.venue, s));
    } else {
      EquityAtEntry(p);
      EquityAtEntry(q);
    }
  }

  /** Marked at its entry price a position is worth what it has realized. */
  lemma EquityAtEntry(p: Position)
    ensures Equity(p, p.entry) == p.realized
  {
  }
}
