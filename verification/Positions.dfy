/**
  Position and profit arithmetic of the paper venue (`_apply_fill` and `_PositionState`).

  Every branch of `_apply_fill` (open, add, reduce, close, flip) turns out to keep one
  account identity: realized profit plus marked open profit is cash flow plus marked inventory.
 */
module Positions {
  import opened Domain

  /** Net quantity (long positive, short negative), entry price and realized profit of one symbol. */
  datatype Position = Position(netQty: real, entry: real, realized: real)

  const FLAT := Position(0.0, 0.0, 0.0)

  datatype ApplyResult = ApplyResult(newState: Position, realizedDelta: real)

  function SameDirection(s: Position, signed: real): bool {
    (s.netQty > 0.0 && signed > 0.0) || (s.netQty < 0.0 && signed < 0.0)
  }

  /** Exact notional a same-direction fill leaves in the position: the numerator of the average. */
  function AddedNotional(s: Position, f: Fill): real {
    Abs(s.netQty) * s.entry + Abs(Signed(f.side, f.quantity)) * f.price
  }

  /** Profit of closing `closed` units of the position at `price`. */
  function Pnl(s: Position, price: real, closed: real): real {
    if s.netQty > 0.0 then (price - s.entry) * closed else (s.entry - price) * closed
  }

  /** The weighted average entry price after adding, with the division off by a relative `err`. */
  function AverageEntry(s: Position, f: Fill, err: real): real
    requires SameDirection(s, Signed(f.side, f.quantity))
  {
    AddedNotional(s, f) / Abs(s.netQty + Signed(f.side, f.quantity)) * (1.0 + err)
  }

  function ApplyFill(s: Position, f: Fill): ApplyResult {
    ApplyRounded(s, f, 0.0)
  }

  /**
    `_apply_fill` where the one division, the new average entry price, may come back with
    relative error `err`; `err == 0` is exact arithmetic.
   */
  function ApplyRounded(s: Position, f: Fill, err: real): ApplyResult {
    var signed := Signed(f.side, f.quantity);
    var newQty := s.netQty + signed;
    if s.netQty == 0.0 then
      ApplyResult(Position(newQty, f.price, s.realized - f.fee), -f.fee)
    else if SameDirection(s, signed) then
      ApplyResult(Position(newQty, AverageEntry(s, f, err), s.realized - f.fee), -f.fee)
    else
      var closed := Min(Abs(s.netQty), Abs(signed));
      var pnl := Pnl(s, f.price, closed);
      var flipped := Abs(signed) > Abs(s.netQty);
      var newEntry := if flipped then f.price else s.entry;
      ApplyResult(Position(newQty, newEntry, s.realized + pnl - f.fee), pnl - f.fee)
  }

  /** Realized profit plus the open position marked at `mark`. */
  function Equity(s: Position, mark: real): real {
    s.realized + (mark - s.entry) * s.netQty
  }

  /** Money a fill brings in: what was sold minus what was bought minus the fee. */
  function CashOf(f: Fill): real {
    -(Signed(f.side, f.quantity) * f.price) - f.fee
  }

  function Cash(fills: seq<Fill>): real {
    if |fills| == 0 then 0.0 else Cash(fills[..|fills| - 1]) + CashOf(fills[|fills| - 1])
  }

  /** Inventory accumulated by the fills. */
  function Net(fills: seq<Fill>): real {
    if |fills| == 0 then 0.0
    else Net(fills[..|fills| - 1]) + Signed(fills[|fills| - 1].side, fills[|fills| - 1].quantity)
  }

  /** The position after all `fills`, oldest first, starting from flat. */
  function Fold(fills: seq<Fill>): Position {
    if |fills| == 0 then FLAT else ApplyFill(Fold(fills[..|fills| - 1]), fills[|fills| - 1]).newState
  }

  // ----- Mark-to-market conservation

  /**
    One fill: whatever branch is taken, marked equity moves by the fill's cash plus its inventory
    marked at `mark`, and the reported delta is the change of realized profit.  A rounded average
    shifts equity by the error times the exact notional, and only when adding.
   */
  lemma {:induction false} FillMovesEquity(s: Position, f: Fill, err: real, mark: real)
    ensures var r := ApplyRounded(s, f, err);
            && r.newState.netQty == s.netQty + Signed(f.side, f.quantity)
            && r.newState.realized == s.realized + r.realizedDelta
            && Equity(r.newState, mark)
               == Equity(s, mark) + CashOf(f) + Signed(f.side, f.quantity) * mark - Defect(s, f, err)
  {
    hide AverageEntry, Pnl, Equity, CashOf, Min;
    var signed := Signed(f.side, f.quantity);
    if s.netQty == 0.0 {
      OpenMovesEquity(s, f, mark);
    } else if SameDirection(s, signed) {
      AddMovesEquity(s, f, err, mark);
    } else {
      CloseMovesEquity(s, f, mark);
    }
  }

  /**
    What a fill does to each field, in plain terms: bought counts up and sold down; opening and flipping
    take the fill's price as entry; adding keeps the total paid; reducing keeps the entry and
    realizes the price difference on what was closed.
   */
  lemma {:induction false} EntryAndRealized(s: Position, f: Fill)
    ensures var r, q := ApplyFill(s, f).newState, if f.side == Buy then f.quantity else -f.quantity;
            && r.netQty == s.netQty + q
            && (s.netQty == 0.0 ==> r.entry == f.price && r.realized == s.realized - f.fee)
            && ((s.netQty > 0.0 && q > 0.0) || (s.netQty < 0.0 && q < 0.0) ==>
                  r.entry * r.netQty == s.entry * s.netQty + f.price * q && r.realized == s.realized - f.fee)
            && (s.netQty > 0.0 && q <= 0.0 ==>
                  var closed := if -q < s.netQty then -q else s.netQty;
                  && r.entry == (if -q > s.netQty then f.price else s.entry)
                  && r.realized == s.realized + (f.price - s.entry) * closed - f.fee)
            && (s.netQty < 0.0 && q >= 0.0 ==>
                  var closed := if q < -s.netQty then q else -s.netQty;
                  && r.entry == (if q > -s.netQty then f.price else s.entry)
                  && r.realized == s.realized + (s.entry - f.price) * closed - f.fee)
  {
    var signed := Signed(f.side, f.quantity);
    if s.netQty != 0.0 && SameDirection(s, signed) {
      hide AddedNotional;
      AverageTimesQuantity(AddedNotional(s, f), s.netQty + signed, 0.0);
      SignedNotional(s, f);
    }
  }

  /** Buying takes the price out of the account and puts the quantity in; selling the reverse; fees go out. */
  lemma MoneyTerms(f: Fill)
    ensures CashOf(f) == (if f.side == Buy then -(f.price * f.quantity) else f.price * f.quantity) - f.fee
    ensures Net([f]) == if f.side == Buy then f.quantity else -f.quantity
  {
    assert Net([]) == 0.0;
  }

  lemma OpenMovesEquity(s: Position, f: Fill, mark: real)
    requires s.netQty == 0.0
    ensures var signed := Signed(f.side, f.quantity);
            Equity(Position(s.netQty + signed, f.price, s.realized - f.fee), mark)
            == Equity(s, mark) + CashOf(f) + signed * mark
  {
  }

  lemma AddMovesEquity(s: Position, f: Fill, err: real, mark: real)
    requires s.netQty != 0.0 && SameDirection(s, Signed(f.side, f.quantity))
    ensures var signed := Signed(f.side, f.quantity);
            var newQty := s.netQty + signed;
            Equity(Position(newQty, AverageEntry(s, f, err), s.realized - f.fee), mark)
            == Equity(s, mark) + CashOf(f) + signed * mark - Defect(s, f, err)
  {
    hide AddedNotional;
    var signed := Signed(f.side, f.quantity);
    var n, newQty := AddedNotional(s, f), s.netQty + signed;
    AverageTimesQuantity(n, newQty, err);
    SignedNotional(s, f);
    var entry := AverageEntry(s, f, err);
    assert (mark - entry) * newQty == mark * newQty - entry * newQty;
    assert mark * newQty == mark * s.netQty + mark * signed;
  }

  lemma CloseMovesEquity(s: Position, f: Fill, mark: real)
    requires s.netQty != 0.0 && !SameDirection(s, Signed(f.side, f.quantity))
    ensures var signed := Signed(f.side, f.quantity);
            var pnl := Pnl(s, f.price, Min(Abs(s.netQty), Abs(signed)));
            var entry := if Abs(signed) > Abs(s.netQty) then f.price else s.entry;
            Equity(Position(s.netQty + signed, entry, s.realized + pnl - f.fee), mark)
            == Equity(s, mark) + CashOf(f) + signed * mark
  {
    var signed := Signed(f.side, f.quantity);
    var pnl := Pnl(s, f.price, Min(Abs(s.netQty), Abs(signed)));
    if Abs(signed) > Abs(s.netQty) {
      assert pnl == (f.price - s.entry) * s.netQty;
      assert (mark - f.price) * (s.netQty + signed) == (mark - f.price) * s.netQty + (mark - f.price) * signed;
    } else {
      assert pnl == (s.entry - f.price) * signed;
      assert (mark - s.entry) * (s.netQty + signed) == (mark - s.entry) * s.netQty + (mark - s.entry) * signed;
    }
  }

  /** A rounded average price times the quantity it was taken over. */
  lemma AverageTimesQuantity(notional: real, quantity: real, err: real)
    requires quantity != 0.0
    ensures var signed := if quantity > 0.0 then notional else -notional;
            notional / Abs(quantity) * (1.0 + err) * quantity == signed + err * signed
  {
    var average := notional / Abs(quantity);
    assert average * Abs(quantity) == notional;
    assert average * quantity == if quantity > 0.0 then notional else -notional;
  }

  lemma SignedNotional(s: Position, f: Fill)
    requires s.netQty != 0.0 && SameDirection(s, Signed(f.side, f.quantity))
    ensures (if s.netQty > 0.0 then AddedNotional(s, f) else -AddedNotional(s, f))
            == s.netQty * s.entry + Signed(f.side, f.quantity) * f.price
  {
  }

  /** How far a rounded average moves the account away from the exact identity. */
  function Defect(s: Position, f: Fill, err: real): real {
    var signed := Signed(f.side, f.quantity);
    if s.netQty != 0.0 && SameDirection(s, signed) then
      if signed > 0.0 then err * AddedNotional(s, f) else -(err * AddedNotional(s, f))
    else 0.0
  }

  lemma {:induction false} ExactFill(s: Position, f: Fill, mark: real)
    ensures var r := ApplyFill(s, f).newState;
            && r.netQty == s.netQty + Signed(f.side, f.quantity)
            && Equity(r, mark) == Equity(s, mark) + CashOf(f) + Signed(f.side, f.quantity) * mark
  {
    FillMovesEquity(s, f, 0.0, mark);
    assert Defect(s, f, 0.0) == 0.0;
    hide ApplyRounded, Equity, CashOf, Defect;
  }

  lemma FlatEquity(mark: real)
    ensures Equity(FLAT, mark) == 0.0
  {
  }

  /** Mark-to-market conservation for every fill sequence and every mark price. */
  lemma {:induction false} MarkToMarket(fills: seq<Fill>, mark: real)
    ensures Fold(fills).netQty == Net(fills)
    ensures Equity(Fold(fills), mark) == Cash(fills) + Net(fills) * mark
  {
    hide ApplyFill, Equity, CashOf;
    FlatEquity(mark);
    if |fills| > 0 {
      var before, f := fills[..|fills| - 1], fills[|fills| - 1];
      MarkToMarket(before, mark);
      ExactFill(Fold(before), f, mark);
      assert (Net(before) + Signed(f.side, f.quantity)) * mark
          == Net(before) * mark + Signed(f.side, f.quantity) * mark;
    }
  }

  /** A position that ends flat has realized exactly its cash flow, whatever path it took. */
  lemma {:induction false} FlatRealizesCash(fills: seq<Fill>)
    ensures Net(fills) == 0.0 ==> Fold(fills).realized == Cash(fills)
  {
    MarkToMarket(fills, 0.0);
  }

  // ----- Rounding drift

  /** The position when the k-th division has relative error `errs[k]`. */
  function FoldRounded(fills: seq<Fill>, errs: seq<real>): Position
    requires |errs| == |fills|
  {
    var n := |fills|;
    if n == 0 then FLAT
    else ApplyRounded(FoldRounded(fills[..n - 1], errs[..n - 1]), fills[n - 1], errs[n - 1]).newState
  }

  /** The exact notional that goes through the averaging division, if the fill causes one. */
  function Averaged(s: Position, f: Fill): real {
    if s.netQty != 0.0 && SameDirection(s, Signed(f.side, f.quantity)) then Abs(AddedNotional(s, f)) else 0.0
  }

  /** Sum of the exact notionals left by the same-direction adds of the run. */
  function AddNotionals(fills: seq<Fill>, errs: seq<real>): real
    requires |errs| == |fills|
  {
    var n := |fills|;
    if n == 0 then 0.0
    else AddNotionals(fills[..n - 1], errs[..n - 1])
         + Averaged(FoldRounded(fills[..n - 1], errs[..n - 1]), fills[n - 1])
  }

  /** Error a relative uncertainty `u` allows on an amount. */
  function Allowance(u: real, amount: real): real {
    u * amount
  }

  /** What the account shows minus what it should show. */
  function Gap(s: Position, fills: seq<Fill>, mark: real): real {
    Equity(s, mark) - (Cash(fills) + Net(fills) * mark)
  }

  /**
    With divisions off by at most `u` (relative), the account identity is off by at most `u`
    times the notionals that went through an averaging division: opening, reducing, closing and
    flipping add no error.
   */
  lemma {:induction false} DriftBound(fills: seq<Fill>, errs: seq<real>, u: real, mark: real)
    requires |errs| == |fills|
    requires forall k :: 0 <= k < |errs| ==> -u <= errs[k] <= u
    ensures FoldRounded(fills, errs).netQty == Net(fills)
    ensures Abs(Gap(FoldRounded(fills, errs), fills, mark)) <= Allowance(u, AddNotionals(fills, errs))
  {
    hide ApplyRounded, Defect, Averaged, Gap, Allowance;
    var n := |fills|;
    if n == 0 {
      NoGap(mark);
      NoAllowance(u);
    } else {
      var before := FoldRounded(fills[..n - 1], errs[..n - 1]);
      var f, err := fills[n - 1], errs[n - 1];
      DriftBound(fills[..n - 1], errs[..n - 1], u, mark);
      GapStep(before, fills, err, mark);
      DefectBound(before, f, err, u);
      AddBounds(Gap(before, fills[..n - 1], mark), AddNotionals(fills[..n - 1], errs[..n - 1]),
                Defect(before, f, err), Averaged(before, f), AddNotionals(fills, errs), u);
    }
  }

  lemma NoGap(mark: real)
    ensures Gap(FLAT, [], mark) == 0.0
  {
  }

  lemma NoAllowance(u: real)
    ensures Allowance(u, 0.0) == 0.0
  {
  }

  lemma {:induction false} GapStep(s: Position, fills: seq<Fill>, err: real, mark: real)
    requires |fills| > 0
    ensures var f := fills[|fills| - 1];
            var r := ApplyRounded(s, f, err).newState;
            && r.netQty == s.netQty + Signed(f.side, f.quantity)
            && Gap(r, fills, mark) == Gap(s, fills[..|fills| - 1], mark) - Defect(s, f, err)
  {
    hide ApplyRounded, Defect, Equity, CashOf;
    var f := fills[|fills| - 1];
    FillMovesEquity(s, f, err, mark);
    var earlier, signed := Net(fills[..|fills| - 1]), Signed(f.side, f.quantity);
    assert (earlier + signed) * mark == earlier * mark + signed * mark;
  }

  lemma AddBounds(x: real, limitX: real, y: real, limitY: real, total: real, u: real)
    requires Abs(x) <= Allowance(u, limitX) && Abs(y) <= Allowance(u, limitY) && total == limitX + limitY
    ensures Abs(x - y) <= Allowance(u, total)
  {
    assert u * (limitX + limitY) == u * limitX + u * limitY;
  }

  lemma {:induction false} DefectBound(s: Position, f: Fill, err: real, u: real)
    requires -u <= err <= u
    ensures Abs(Defect(s, f, err)) <= Allowance(u, Averaged(s, f))
    ensures s.netQty == 0.0 || !SameDirection(s, Signed(f.side, f.quantity)) ==> Defect(s, f, err) == 0.0
  {
    hide AddedNotional;
    var m := AddedNotional(s, f);
    ScaleMonotone(err, u, Abs(m));
    ScaleMonotone(-u, err, Abs(m));
    assert -u * Abs(m) == -(u * Abs(m));
    assert m < 0.0 ==> err * m == -(err * Abs(m));
    assert u * 0.0 == 0.0;
  }

  // ----- A worse price never helps

  /** `a` holds the same inventory as `b`, bought dearer or sold cheaper, with no more realized. */
  predicate Worse(a: Position, b: Position) {
    && a.netQty == b.netQty
    && a.realized <= b.realized
    && (a.netQty > 0.0 ==> a.entry >= b.entry)
    && (a.netQty < 0.0 ==> a.entry <= b.entry)
  }

  /** The same trade at a price no better for the account and a fee no smaller. */
  predicate WorseFill(f: Fill, g: Fill) {
    && f.symbol == g.symbol && f.side == g.side && f.quantity == g.quantity && f.orderId == g.orderId
    && f.fee >= g.fee
    && (if f.side == Buy then f.price >= g.price else f.price <= g.price)
  }

  lemma {:induction false} WorseStays(a: Position, b: Position, f: Fill, g: Fill)
    requires Worse(a, b) && WorseFill(f, g) && f.quantity > 0.0
    ensures Worse(ApplyFill(a, f).newState, ApplyFill(b, g).newState)
  {
    hide ApplyFill;
    if a.netQty == 0.0 {
      Opened(a, f);
      Opened(b, g);
    } else if SameDirection(a, Signed(f.side, f.quantity)) {
      WorseAdd(a, b, f, g);
    } else {
      WorseReduce(a, b, f, g);
    }
  }

  lemma Opened(s: Position, f: Fill)
    requires s.netQty == 0.0
    ensures ApplyFill(s, f).newState == Position(s.netQty + Signed(f.side, f.quantity), f.price, s.realized - f.fee)
  {
  }

  /** What a fill in the direction of the position leaves. */
  lemma Added(s: Position, f: Fill)
    requires s.netQty != 0.0 && SameDirection(s, Signed(f.side, f.quantity))
    ensures var newQty := s.netQty + Signed(f.side, f.quantity);
            && newQty != 0.0
            && ApplyFill(s, f).newState == Position(newQty, AddedNotional(s, f) / Abs(newQty), s.realized - f.fee)
  {
  }

  /** What a fill against the position leaves. */
  lemma Reduced(s: Position, f: Fill)
    requires s.netQty != 0.0 && !SameDirection(s, Signed(f.side, f.quantity))
    ensures var signed := Signed(f.side, f.quantity);
            var closed := Min(Abs(s.netQty), Abs(signed));
            var r := ApplyFill(s, f).newState;
            && r.netQty == s.netQty + signed
            && r.realized == s.realized + Pnl(s, f.price, closed) - f.fee
            && r.entry == (if Abs(signed) > Abs(s.netQty) then f.price else s.entry)
  {
  }

  lemma {:induction false} WorseAdd(a: Position, b: Position, f: Fill, g: Fill)
    requires Worse(a, b) && WorseFill(f, g) && f.quantity > 0.0
    requires a.netQty != 0.0 && SameDirection(a, Signed(f.side, f.quantity))
    ensures Worse(ApplyFill(a, f).newState, ApplyFill(b, g).newState)
  {
    hide ApplyFill, AddedNotional;
    Added(a, f);
    Added(b, g);
    WorseNotional(a, b, f, g);
    var held, added := Abs(a.netQty), Abs(Signed(f.side, f.quantity));
    if f.side == Buy {
      DivideMonotone(AddedNotional(b, g), AddedNotional(a, f), held + added);
    } else {
      DivideMonotone(AddedNotional(a, f), AddedNotional(b, g), held + added);
    }
  }

  lemma WorseNotional(a: Position, b: Position, f: Fill, g: Fill)
    requires Worse(a, b) && WorseFill(f, g) && f.quantity > 0.0
    requires a.netQty != 0.0 && SameDirection(a, Signed(f.side, f.quantity))
    ensures if f.side == Buy then AddedNotional(a, f) >= AddedNotional(b, g)
            else AddedNotional(a, f) <= AddedNotional(b, g)
  {
    var held, added := Abs(a.netQty), Abs(Signed(f.side, f.quantity));
    if f.side == Buy {
      WeightedMonotone(held, b.entry, a.entry, added, g.price, f.price);
    } else {
      WeightedMonotone(held, a.entry, b.entry, added, f.price, g.price);
    }
  }

  lemma WeightedMonotone(v: real, x: real, x': real, w: real, y: real, y': real)
    requires v >= 0.0 && x <= x' && w >= 0.0 && y <= y'
    ensures v * x + w * y <= v * x' + w * y'
  {
    ScaleMonotone(x, x', v);
    ScaleMonotone(y, y', w);
  }

  lemma {:induction false} WorseReduce(a: Position, b: Position, f: Fill, g: Fill)
    requires Worse(a, b) && WorseFill(f, g) && f.quantity > 0.0
    requires a.netQty != 0.0 && !SameDirection(a, Signed(f.side, f.quantity))
    ensures Worse(ApplyFill(a, f).newState, ApplyFill(b, g).newState)
  {
    hide ApplyFill, Pnl;
    Reduced(a, f);
    Reduced(b, g);
    PnlMonotone(a, b, f, g, Min(Abs(a.netQty), Abs(Signed(f.side, f.quantity))));
  }

  lemma PnlMonotone(a: Position, b: Position, f: Fill, g: Fill, closed: real)
    requires Worse(a, b) && WorseFill(f, g) && closed >= 0.0
    requires a.netQty != 0.0 && (f.side == Sell <==> a.netQty > 0.0)
    ensures Pnl(a, f.price, closed) <= Pnl(b, g.price, closed)
  {
    if a.netQty > 0.0 {
      ScaleMonotone(f.price - a.entry, g.price - b.entry, closed);
    } else {
      ScaleMonotone(a.entry - f.price, b.entry - g.price, closed);
    }
  }

  lemma DivideMonotone(x: real, y: real, d: real)
    requires x <= y && d > 0.0
    ensures x / d <= y / d
  {
  }

  lemma ScaleMonotone(x: real, y: real, d: real)
    requires x <= y && d >= 0.0
    ensures x * d <= y * d
  {
  }

  /** So at every mark price the worse position is worth no more. */
  lemma {:induction false} WorseIsPoorer(a: Position, b: Position, mark: real)
    requires Worse(a, b)
    ensures Equity(a, mark) <= Equity(b, mark)
  {
    MarkedMonotone(a.entry, b.entry, a.netQty, mark);
    assert (mark - b.entry) * a.netQty == (mark - b.entry) * b.netQty;
  }

  lemma MarkedMonotone(x: real, y: real, n: real, mark: real)
    requires (n > 0.0 ==> x >= y) && (n < 0.0 ==> x <= y)
    ensures (mark - x) * n <= (mark - y) * n
  {
    if n == 0.0 {
    } else if n > 0.0 {
      ScaleMonotone(mark - x, mark - y, n);
    } else {
      ScaleMonotone(mark - y, mark - x, -n);
      assert (mark - x) * n == -((mark - x) * -n);
      assert (mark - y) * n == -((mark - y) * -n);
    }
  }
}
