/**
  Rebuilding an order book from a feed of snapshot and delta messages (`_OrderbookState`).

  The book emitted after any feed is characterised by the feed alone: a level is there exactly
  when the last thing said about its price since the latest snapshot was a size other than zero.
 */
module MarketData {
  import opened Domain
  import opened Sorting

  type BookSide = map<real, real>

  /** One feed message; each level is a price with its new size, size zero deleting the level. */
  datatype Message = Message(isSnapshot: bool, bids: seq<Level>, asks: seq<Level>, updateId: Option<int>)
  {
    function Levels(ofBids: bool): seq<Level> {
      if ofBids then bids else asks
    }
  }

  datatype BookState = BookState(bids: BookSide, asks: BookSide, lastUpdateId: Option<int>)

  const EMPTY_BOOK := BookState(map[], map[], None)

  // ----- What one message does

  function SetLevel(side: BookSide, level: Level): BookSide {
    if level.quantity == 0.0 then side - {level.price} else side[level.price := level.quantity]
  }

  /** `_apply_side`: the levels in order, the later overriding the earlier. */
  function Merge(side: BookSide, levels: seq<Level>): BookSide {
    if |levels| == 0 then side
    else SetLevel(Merge(side, levels[..|levels| - 1]), levels[|levels| - 1])
  }

  function ApplyMessage(s: BookState, m: Message): BookState {
    var base := if m.isSnapshot then BookState(map[], map[], s.lastUpdateId) else s;
    BookState(Merge(base.bids, m.bids), Merge(base.asks, m.asks),
              if m.updateId.Some? then m.updateId else s.lastUpdateId)
  }

  function Rebuild(feed: seq<Message>): BookState {
    if |feed| == 0 then EMPTY_BOOK else ApplyMessage(Rebuild(feed[..|feed| - 1]), feed[|feed| - 1])
  }

  // ----- What is emitted

  function Upwards(x: real, y: real): bool {
    x <= y
  }

  function Downwards(x: real, y: real): bool {
    x >= y
  }

  lemma RealsOrdered()
    ensures TotalOrder(Upwards) && TotalOrder(Downwards)
  {
  }

  function LevelsAt(side: BookSide, prices: seq<real>): seq<Level>
    requires forall i :: 0 <= i < |prices| ==> prices[i] in side
  {
    seq(|prices|, i requires 0 <= i < |prices| => Level(prices[i], side[prices[i]]))
  }

  /** `to_snapshot`: bids from the highest price down, asks from the lowest up. */
  function Emit(symbol: Symbol, s: BookState, timestamp: Time): Book {
    RealsOrdered();
    Book(symbol,
         LevelsAt(s.bids, InOrder(s.bids.Keys, Downwards)),
         LevelsAt(s.asks, InOrder(s.asks.Keys, Upwards)),
         if s.lastUpdateId.Some? then s.lastUpdateId.value else 0,
         timestamp)
  }

  // ----- Last writer wins

  /** Everything said about one side since the latest snapshot, that snapshot included. */
  function SaidSince(feed: seq<Message>, ofBids: bool): seq<Level> {
    if |feed| == 0 then []
    else
      var last := feed[|feed| - 1];
      if last.isSnapshot then last.Levels(ofBids)
      else SaidSince(feed[..|feed| - 1], ofBids) + last.Levels(ofBids)
  }

  /** The size in the last entry for `price`, if there is an entry. */
  function LastSaid(entries: seq<Level>, price: real): Option<real> {
    if |entries| == 0 then None
    else if entries[|entries| - 1].price == price then Some(entries[|entries| - 1].quantity)
    else LastSaid(entries[..|entries| - 1], price)
  }

  lemma {:induction false} MergeLookup(side: BookSide, levels: seq<Level>, price: real)
    ensures var said := LastSaid(levels, price);
            var merged := Merge(side, levels);
            match said
            case None => (price in merged <==> price in side) && (price in side ==> merged[price] == side[price])
            case Some(size) => (price in merged <==> size != 0.0) && (size != 0.0 ==> merged[price] == size)
  {
    if |levels| > 0 {
      MergeLookup(side, levels[..|levels| - 1], price);
    }
  }

  lemma {:induction false} MergeAppend(side: BookSide, xs: seq<Level>, ys: seq<Level>)
    ensures Merge(side, xs + ys) == Merge(Merge(side, xs), ys)
  {
    if |ys| == 0 {
      assert xs + ys == xs;
    } else {
      assert (xs + ys)[..|xs + ys| - 1] == xs + ys[..|ys| - 1];
      MergeAppend(side, xs, ys[..|ys| - 1]);
    }
  }

  lemma {:induction false} RebuildMerges(feed: seq<Message>)
    ensures Rebuild(feed).bids == Merge(map[], SaidSince(feed, true))
    ensures Rebuild(feed).asks == Merge(map[], SaidSince(feed, false))
  {
    if |feed| > 0 {
      var before, last := feed[..|feed| - 1], feed[|feed| - 1];
      RebuildMerges(before);
      if !last.isSnapshot {
        MergeAppend(map[], SaidSince(before, true), last.bids);
        MergeAppend(map[], SaidSince(before, false), last.asks);
      }
    }
  }

  lemma {:induction false} EmittedLevels(symbol: Symbol, s: BookState, timestamp: Time, level: Level)
    ensures var book := Emit(symbol, s, timestamp);
            && (level in book.bids <==> level.price in s.bids && s.bids[level.price] == level.quantity)
            && (level in book.asks <==> level.price in s.asks && s.asks[level.price] == level.quantity)
  {
    RealsOrdered();
    ListedLevels(s.bids, InOrder(s.bids.Keys, Downwards), level);
    ListedLevels(s.asks, InOrder(s.asks.Keys, Upwards), level);
  }

  lemma ListedLevels(side: BookSide, prices: seq<real>, level: Level)
    requires forall i :: 0 <= i < |prices| ==> prices[i] in side
    requires forall p :: p in side ==> p in prices
    ensures level in LevelsAt(side, prices) <==> level.price in side && side[level.price] == level.quantity
  {
    var listed := LevelsAt(side, prices);
    if level.price in side && side[level.price] == level.quantity {
      var i :| 0 <= i < |prices| && prices[i] == level.price;
      assert listed[i] == level;
    }
    if level in listed {
      var i :| 0 <= i < |listed| && listed[i] == level;
      assert prices[i] in prices;
    }
  }

  /**
    For every feed: a level is in the emitted book exactly when the last entry for its price since
    the latest snapshot gave that size and the size is not zero.
   */
  lemma {:induction false} LastWriterWins(symbol: Symbol, feed: seq<Message>, timestamp: Time, level: Level)
    ensures var book := Emit(symbol, Rebuild(feed), timestamp);
            && (level in book.bids
                <==> LastSaid(SaidSince(feed, true), level.price) == Some(level.quantity) && level.quantity != 0.0)
            && (level in book.asks
                <==> LastSaid(SaidSince(feed, false), level.price) == Some(level.quantity) && level.quantity != 0.0)
  {
    RebuildMerges(feed);
    EmittedLevels(symbol, Rebuild(feed), timestamp, level);
    MergeLookup(map[], SaidSince(feed, true), level.price);
    MergeLookup(map[], SaidSince(feed, false), level.price);
  }

  /** Whatever the feed, bids come out strictly downwards and asks strictly upwards. */
  lemma {:induction false} EmittedSorted(symbol: Symbol, s: BookState, timestamp: Time)
    ensures var book := Emit(symbol, s, timestamp);
            && (forall i, j :: 0 <= i < j < |book.bids| ==> book.bids[i].price > book.bids[j].price)
            && (forall i, j :: 0 <= i < j < |book.asks| ==> book.asks[i].price < book.asks[j].price)
            && SortedBook(book)
  {
    hide InOrder, TotalOrder;
    RealsOrdered();
    var bids, asks := InOrder(s.bids.Keys, Downwards), InOrder(s.asks.Keys, Upwards);
    IncreasingReals(bids, Downwards);
    IncreasingReals(asks, Upwards);
  }

  /** Downwards means strictly falling, upwards strictly rising. */
  lemma IncreasingReals(prices: seq<real>, le: (real, real) -> bool)
    requires Increasing(prices, le)
    ensures le == Downwards ==> forall i, j :: 0 <= i < j < |prices| ==> prices[i] > prices[j]
    ensures le == Upwards ==> forall i, j :: 0 <= i < j < |prices| ==> prices[i] < prices[j]
  {
    forall i, j | 0 <= i < j < |prices|
      ensures le(prices[i], prices[j]) && prices[i] != prices[j]
    {
    }
  }

  /**
    The rest of the emitted book: its symbol, the time asked for, and as sequence the last update id
    any message carried, 0 if none did.
   */
  lemma {:induction false} EmittedStamp(symbol: Symbol, feed: seq<Message>, timestamp: Time)
    ensures var book := Emit(symbol, Rebuild(feed), timestamp);
            && book.symbol == symbol && book.timestamp == timestamp
            && ((forall k :: 0 <= k < |feed| ==> feed[k].updateId.None?) ==> book.sequence == 0)
            && (forall k :: 0 <= k < |feed| && feed[k].updateId.Some?
                            && (forall j :: k < j < |feed| ==> feed[j].updateId.None?) ==>
                  book.sequence == feed[k].updateId.value)
  {
    hide InOrder, Merge, Rebuild;
    if forall k :: 0 <= k < |feed| ==> feed[k].updateId.None? {
      NoId(feed);
    }
    forall k | 0 <= k < |feed| && feed[k].updateId.Some? && (forall j :: k < j < |feed| ==> feed[j].updateId.None?)
      ensures Rebuild(feed).lastUpdateId == feed[k].updateId
    {
      LastId(feed, k);
    }
  }

  lemma {:induction false} NoId(feed: seq<Message>)
    requires forall k :: 0 <= k < |feed| ==> feed[k].updateId.None?
    ensures Rebuild(feed).lastUpdateId == None
  {
    hide Merge;
    if |feed| > 0 {
      NoId(feed[..|feed| - 1]);
    }
  }

  lemma {:induction false} LastId(feed: seq<Message>, k: nat)
    requires k < |feed| && feed[k].updateId.Some? && forall j :: k < j < |feed| ==> feed[j].updateId.None?
    ensures Rebuild(feed).lastUpdateId == feed[k].updateId
  {
    hide Merge;
    if k < |feed| - 1 {
      LastId(feed[..|feed| - 1], k);
    }
  }

  predicate SensibleLevels(levels: seq<Level>) {
    forall i :: 0 <= i < |levels| ==> levels[i].price > 0.0 && levels[i].quantity >= 0.0
  }

  /** No message quotes a negative size or a price that is not positive. */
  predicate SensibleFeed(feed: seq<Message>) {
    forall k :: 0 <= k < |feed| ==> SensibleLevels(feed[k].bids) && SensibleLevels(feed[k].asks)
  }

  /** A sensible feed emits only what the fill engines assume of a book. */
  lemma {:induction false} EmittedForEngines(symbol: Symbol, feed: seq<Message>, timestamp: Time)
    requires SensibleFeed(feed)
    ensures var book := Emit(symbol, Rebuild(feed), timestamp);
            PositiveBook(book) && SortedBook(book)
  {
    var book := Emit(symbol, Rebuild(feed), timestamp);
    EmittedSorted(symbol, Rebuild(feed), timestamp);
    forall i | 0 <= i < |book.bids|
      ensures book.bids[i].quantity > 0.0 && book.bids[i].price > 0.0
    {
      assert book.bids[i] in book.bids;
      LastWriterWins(symbol, feed, timestamp, book.bids[i]);
      SaidIsSensible(feed, true);
      LastSaidSensible(SaidSince(feed, true), book.bids[i].price);
    }
    forall i | 0 <= i < |book.asks|
      ensures book.asks[i].quantity > 0.0 && book.asks[i].price > 0.0
    {
      assert book.asks[i] in book.asks;
      LastWriterWins(symbol, feed, timestamp, book.asks[i]);
      SaidIsSensible(feed, false);
      LastSaidSensible(SaidSince(feed, false), book.asks[i].price);
    }
  }

  lemma {:induction false} SaidIsSensible(feed: seq<Message>, ofBids: bool)
    requires SensibleFeed(feed)
    ensures SensibleLevels(SaidSince(feed, ofBids))
  {
    if |feed| > 0 {
      SaidIsSensible(feed[..|feed| - 1], ofBids);
    }
  }

  lemma {:induction false} LastSaidSensible(entries: seq<Level>, price: real)
    requires SensibleLevels(entries)
    ensures var said := LastSaid(entries, price);
            said.Some? ==> said.value >= 0.0 && price > 0.0
  {
    if |entries| > 0 {
      LastSaidSensible(entries[..|entries| - 1], price);
    }
  }

  // ----- Order inside a message, and snapshots against deltas

  predicate DistinctPrices(levels: seq<Level>) {
    forall i, j :: 0 <= i < j < |levels| ==> levels[i].price != levels[j].price
  }

  lemma {:induction false} LastSaidDistinct(entries: seq<Level>, price: real)
    requires DistinctPrices(entries)
    ensures match LastSaid(entries, price)
            case None => forall level :: level in entries ==> level.price != price
            case Some(size) => Level(price, size) in entries
  {
    if |entries| > 0 {
      LastSaidDistinct(entries[..|entries| - 1], price);
    }
  }

  /** Levels of one message with distinct prices may come in any order. */
  lemma {:induction false} OrderInMessageIsIrrelevant(side: BookSide, levels: seq<Level>, shuffled: seq<Level>)
    requires DistinctPrices(levels) && multiset(levels) == multiset(shuffled)
    ensures Merge(side, levels) == Merge(side, shuffled)
  {
    ShuffleKeepsDistinct(levels, shuffled);
    var a, b := Merge(side, levels), Merge(side, shuffled);
    forall price
      ensures (price in a <==> price in b) && (price in a ==> a[price] == b[price])
    {
      MergeLookup(side, levels, price);
      MergeLookup(side, shuffled, price);
      LastSaidDistinct(levels, price);
      LastSaidDistinct(shuffled, price);
      SameEntry(levels, shuffled, price);
    }
  }

  lemma SameEntry(levels: seq<Level>, shuffled: seq<Level>, price: real)
    requires DistinctPrices(levels) && multiset(levels) == multiset(shuffled)
    requires DistinctPrices(shuffled)
    ensures LastSaid(levels, price) == LastSaid(shuffled, price)
  {
    LastSaidDistinct(levels, price);
    LastSaidDistinct(shuffled, price);
    forall level
      ensures level in levels <==> level in shuffled
    {
      assert level in levels <==> level in multiset(levels);
      assert level in shuffled <==> level in multiset(shuffled);
    }
    var x, y := LastSaid(levels, price), LastSaid(shuffled, price);
    if x.Some? && y.Some? {
      var i :| 0 <= i < |levels| && levels[i] == Level(price, x.value);
      assert Level(price, y.value) in levels;
      var j :| 0 <= j < |levels| && levels[j] == Level(price, y.value);
      assert i == j;
    }
  }

  lemma {:induction false} ShuffleKeepsDistinct(levels: seq<Level>, shuffled: seq<Level>)
    requires DistinctPrices(levels) && multiset(levels) == multiset(shuffled)
    ensures DistinctPrices(shuffled)
  {
    forall i, j | 0 <= i < j < |shuffled|
      ensures shuffled[i].price != shuffled[j].price
    {
      if shuffled[i].price == shuffled[j].price {
        assert shuffled[i] in multiset(shuffled) && shuffled[j] in multiset(shuffled);
        var a :| 0 <= a < |levels| && levels[a] == shuffled[i];
        var b :| 0 <= b < |levels| && levels[b] == shuffled[j];
        assert a == b;
        CountTwice(shuffled, i, j);
        CountOnce(levels, a);
        assert false;
      }
    }
  }

  lemma CountTwice(s: seq<Level>, i: nat, j: nat)
    requires i < j < |s| && s[i] == s[j]
    ensures multiset(s)[s[i]] >= 2
  {
    assert s == s[..j] + s[j..];
    assert s[i] in multiset(s[..j]) by {
      assert s[..j][i] == s[i];
    }
    assert s[j] in multiset(s[j..]) by {
      assert s[j..][0] == s[j];
    }
  }

  lemma CountOnce(s: seq<Level>, i: nat)
    requires i < |s| && DistinctPrices(s)
    ensures multiset(s)[s[i]] == 1
  {
    assert s == s[..i] + [s[i]] + s[i + 1..];
    assert s[i] !in s[..i] && s[i] !in s[i + 1..];
    assert s[i] !in multiset(s[..i]) && s[i] !in multiset(s[i + 1..]);
  }

  /** The feed in which every message is replaced by a full snapshot of the book it leaves. */
  function FullSnapshots(symbol: Symbol, feed: seq<Message>): seq<Message> {
    if |feed| == 0 then []
    else
      var book := Emit(symbol, Rebuild(feed), 0);
      FullSnapshots(symbol, feed[..|feed| - 1])
      + [Message(true, book.bids, book.asks, feed[|feed| - 1].updateId)]
  }

  /** Deltas on top of a snapshot and pre-merged full snapshots rebuild the same book. */
  lemma {:induction false} DeltasEqualSnapshots(symbol: Symbol, feed: seq<Message>)
    ensures |FullSnapshots(symbol, feed)| == |feed|
    ensures Rebuild(FullSnapshots(symbol, feed)) == Rebuild(feed)
  {
    if |feed| > 0 {
      var before := feed[..|feed| - 1];
      var full := FullSnapshots(symbol, feed);
      DeltasEqualSnapshots(symbol, before);
      assert full[..|full| - 1] == FullSnapshots(symbol, before);
      var s := Rebuild(feed);
      RealsOrdered();
      NoZeroSizes(feed);
      MergeOfListing(s.bids, InOrder(s.bids.Keys, Downwards));
      MergeOfListing(s.asks, InOrder(s.asks.Keys, Upwards));
    }
  }

  lemma {:induction false} NoZeroSizes(feed: seq<Message>)
    ensures forall p :: p in Rebuild(feed).bids ==> Rebuild(feed).bids[p] != 0.0
    ensures forall p :: p in Rebuild(feed).asks ==> Rebuild(feed).asks[p] != 0.0
  {
    RebuildMerges(feed);
    forall p
      ensures p in Rebuild(feed).bids ==> Rebuild(feed).bids[p] != 0.0
      ensures p in Rebuild(feed).asks ==> Rebuild(feed).asks[p] != 0.0
    {
      MergeLookup(map[], SaidSince(feed, true), p);
      MergeLookup(map[], SaidSince(feed, false), p);
    }
  }

  lemma {:induction false} MergeOfListing(side: BookSide, prices: seq<real>)
    requires forall p :: p in prices <==> p in side
    requires forall p :: p in side ==> side[p] != 0.0
    requires forall i, j :: 0 <= i < j < |prices| ==> prices[i] != prices[j]
    ensures Merge(map[], LevelsAt(side, prices)) == side
  {
    var levels := LevelsAt(side, prices);
    var merged := Merge(map[], levels);
    forall p
      ensures (p in merged <==> p in side) && (p in side ==> merged[p] == side[p])
    {
      MergeLookup(map[], levels, p);
      LastSaidDistinct(levels, p);
      if p in side {
        ListedLevels(side, prices, Level(p, side[p]));
      }
      if LastSaid(levels, p).Some? {
        ListedLevels(side, prices, Level(p, LastSaid(levels, p).value));
      }
    }
  }

  // ----- The mutable book

  /** `_OrderbookState`. */
  class OrderbookState {
    const symbol: Symbol
    var bids: BookSide
    var asks: BookSide
    var lastUpdateId: Option<int>

    constructor (symbol: Symbol)
      ensures this.symbol == symbol && State() == EMPTY_BOOK
    {
      this.symbol := symbol;
      bids, asks, lastUpdateId := map[], map[], None;
    }

    function State(): BookState
      reads this
    {
      BookState(bids, asks, lastUpdateId)
    }

    method Apply(m: Message)
      modifies this
      ensures State() == ApplyMessage(old(State()), m)
    {
      if m.isSnapshot {
        bids := map[];
        asks := map[];
      }
      bids := ApplySide(bids, m.bids);
      asks := ApplySide(asks, m.asks);
      if m.updateId.Some? {
        lastUpdateId := m.updateId;
      }
    }

    static method ApplySide(side: BookSide, levels: seq<Level>) returns (merged: BookSide)
      ensures merged == Merge(side, levels)
    {
      merged := side;
      for i := 0 to |levels|
        invariant merged == Merge(side, levels[..i])
      {
        var level := levels[i];
        assert levels[..i + 1][..i] == levels[..i];
        if level.quantity == 0.0 {
          merged := merged - {level.price};
        } else {
          merged := merged[level.price := level.quantity];
        }
      }
      assert levels[..|levels|] == levels;
    }

    function ToSnapshot(timestamp: Time): (book: Book)
      reads this
      ensures SortedBook(book) && book.symbol == symbol && book.timestamp == timestamp
      ensures lastUpdateId.Some? ==> book.sequence == lastUpdateId.value
      ensures lastUpdateId.None? ==> book.sequence == 0
      ensures forall level :: level in book.bids <==> level.price in bids && bids[level.price] == level.quantity
      ensures forall level :: level in book.asks <==> level.price in asks && asks[level.price] == level.quantity
    {
      EmittedSorted(symbol, State(), timestamp);
      assert forall level ::
          var book := Emit(symbol, State(), timestamp);
          && (level in book.bids <==> level.price in bids && bids[level.price] == level.quantity)
          && (level in book.asks <==> level.price in asks && asks[level.price] == level.quantity) by {
        forall level {
          EmittedLevels(symbol, State(), timestamp, level);
        }
      }
      Emit(symbol, State(), timestamp)
    }
  }
}
