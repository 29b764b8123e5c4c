/**
  The order journal: an append-only list of order versions, and the two ways of reading back the
  orders that are still working.
 */
module Journal {
  import opened Domain

  /**
    Row of order `oid` that the SQL reader ranks first: latest by `updated_at`, then by row id.
    -1 when the order has no row.
   */
  function LatestIndex(rows: seq<Order>, oid: OrderId): (i: int)
    ensures -1 <= i < |rows|
    ensures i >= 0 ==> rows[i].orderId == oid
  {
    if |rows| == 0 then -1
    else
      var last := |rows| - 1;
      var best := LatestIndex(rows[..last], oid);
      if rows[last].orderId == oid && (best < 0 || rows[best].updatedAt <= rows[last].updatedAt) then last else best
  }

  /** Row of order `oid` written last: what the in-memory reader's dictionary ends up with. */
  function LastIndex(rows: seq<Order>, oid: OrderId): (i: int)
    ensures -1 <= i < |rows|
    ensures i >= 0 ==> rows[i].orderId == oid
  {
    if |rows| == 0 then -1
    else if rows[|rows| - 1].orderId == oid then |rows| - 1
    else LastIndex(rows[..|rows| - 1], oid)
  }

  function Ids(rows: seq<Order>): (ids: set<OrderId>)
    ensures forall k :: k in ids <==> LatestIndex(rows, k) >= 0
    ensures forall k :: k in ids <==> LastIndex(rows, k) >= 0
  {
    if |rows| == 0 then {} else Ids(rows[..|rows| - 1]) + {rows[|rows| - 1].orderId}
  }

  /** `SQLiteOrderJournal.read_open_orders` without a symbol, as a dictionary by order id. */
  function ReadLatest(rows: seq<Order>): map<OrderId, Order> {
    map k | k in Ids(rows) && !IsTerminal(rows[LatestIndex(rows, k)].status) :: rows[LatestIndex(rows, k)]
  }

  /** `InMemoryOrderJournal.read_open_orders` without a symbol. */
  function ReadLast(rows: seq<Order>): map<OrderId, Order> {
    map k | k in Ids(rows) && !IsTerminal(rows[LastIndex(rows, k)].status) :: rows[LastIndex(rows, k)]
  }

  /** Row `i` comes first in its order's partition by `updated_at` and id, both descending. */
  predicate RankedFirst(rows: seq<Order>, i: int)
    requires 0 <= i < |rows|
  {
    forall j :: 0 <= j < |rows| && rows[j].orderId == rows[i].orderId ==>
      rows[j].updatedAt < rows[i].updatedAt || (rows[j].updatedAt == rows[i].updatedAt && j <= i)
  }

  /** The fold finds the row the window query numbers 1, and finds one whenever there is one. */
  lemma {:induction false} LatestIsRankedFirst(rows: seq<Order>, oid: OrderId, i: int)
    requires 0 <= i < |rows| && rows[i].orderId == oid
    ensures RankedFirst(rows, i) <==> i == LatestIndex(rows, oid)
    ensures LatestIndex(rows, oid) >= 0 && RankedFirst(rows, LatestIndex(rows, oid))
  {
    LatestOutranks(rows, oid);
    assert LatestIndex(rows, oid) >= 0;
    var top := LatestIndex(rows, oid);
    if RankedFirst(rows, i) {
      assert rows[top].orderId == rows[i].orderId;
    }
  }

  lemma {:induction false} LatestOutranks(rows: seq<Order>, oid: OrderId)
    ensures forall j :: 0 <= j < |rows| && rows[j].orderId == oid ==>
              var i := LatestIndex(rows, oid);
              i >= 0 && (rows[j].updatedAt < rows[i].updatedAt || (rows[j].updatedAt == rows[i].updatedAt && j <= i))
  {
    if |rows| > 0 {
      var before := rows[..|rows| - 1];
      LatestOutranks(before, oid);
      assert forall j :: 0 <= j < |before| ==> before[j] == rows[j];
    }
  }

  lemma {:induction false} LastIsLast(rows: seq<Order>, oid: OrderId)
    ensures forall j :: 0 <= j < |rows| && rows[j].orderId == oid ==> j <= LastIndex(rows, oid)
  {
    if |rows| > 0 {
      var before := rows[..|rows| - 1];
      LastIsLast(before, oid);
      assert forall j :: 0 <= j < |before| ==> before[j] == rows[j];
    }
  }

  /**
    The two readers pick the same row of an order exactly when its last written row is not older
    than any of its rows.
   */
  lemma {:induction false} ReadersPickSameRow(rows: seq<Order>, oid: OrderId)
    requires oid in Ids(rows)
    ensures LatestIndex(rows, oid) == LastIndex(rows, oid)
            <==> forall j :: 0 <= j < |rows| && rows[j].orderId == oid ==>
                   rows[j].updatedAt <= rows[LastIndex(rows, oid)].updatedAt
  {
    LatestOutranks(rows, oid);
    LastIsLast(rows, oid);
    var i, last := LatestIndex(rows, oid), LastIndex(rows, oid);
    if i != last {
      assert rows[i].orderId == oid && rows[last].orderId == oid;
    }
  }

  /** Every order's rows were written in order of their `updated_at`. */
  predicate WrittenInOrder(rows: seq<Order>) {
    forall i, j :: 0 <= i < j < |rows| && rows[i].orderId == rows[j].orderId ==> rows[i].updatedAt <= rows[j].updatedAt
  }

  /** The journal implementations agree on every write sequence in time order. */
  lemma {:induction false} JournalsAgree(rows: seq<Order>)
    requires WrittenInOrder(rows)
    ensures ReadLatest(rows) == ReadLast(rows)
  {
    hide LatestIndex, LastIndex, Ids;
    forall k | k in Ids(rows)
      ensures LatestIndex(rows, k) == LastIndex(rows, k)
    {
      var last := LastIndex(rows, k);
      LastIsLast(rows, k);
      assert forall j :: 0 <= j < |rows| && rows[j].orderId == k ==> rows[j].updatedAt <= rows[last].updatedAt;
      ReadersPickSameRow(rows, k);
    }
  }

  /** What both readers return, order by order: the row ranked first, or written last, if it is still working. */
  lemma {:induction false} ReadersReturn(rows: seq<Order>, oid: OrderId)
    ensures oid in ReadLatest(rows)
            <==> exists i :: && 0 <= i < |rows| && rows[i].orderId == oid && RankedFirst(rows, i)
                             && rows[i].status in {Submitted, Acked, PartiallyFilled}
    ensures forall i :: 0 <= i < |rows| && rows[i].orderId == oid && RankedFirst(rows, i) && oid in ReadLatest(rows) ==>
              ReadLatest(rows)[oid] == rows[i]
    ensures oid in ReadLast(rows)
            <==> exists i :: && 0 <= i < |rows| && rows[i].orderId == oid && WrittenLast(rows, i)
                             && rows[i].status in {Submitted, Acked, PartiallyFilled}
    ensures forall i :: 0 <= i < |rows| && rows[i].orderId == oid && WrittenLast(rows, i) && oid in ReadLast(rows) ==>
              ReadLast(rows)[oid] == rows[i]
  {
    hide LatestIndex, LastIndex, Ids, RankedFirst;
    LastIsLast(rows, oid);
    if i :| 0 <= i < |rows| && rows[i].orderId == oid {
      LatestIsRankedFirst(rows, oid, i);
    }
    forall i | 0 <= i < |rows| && rows[i].orderId == oid
      ensures RankedFirst(rows, i) <==> i == LatestIndex(rows, oid)
      ensures WrittenLast(rows, i) <==> i == LastIndex(rows, oid)
      ensures LastIndex(rows, oid) >= 0
    {
      LatestIsRankedFirst(rows, oid, i);
    }
    if oid in Ids(rows) {
      var latest, last := LatestIndex(rows, oid), LastIndex(rows, oid);
      WorkingStatuses(rows[latest].status);
      WorkingStatuses(rows[last].status);
      assert rows[latest].orderId == oid && rows[last].orderId == oid;
    }
  }

  /** No row of the same order was written after row `i`. */
  predicate WrittenLast(rows: seq<Order>, i: int)
    requires 0 <= i < |rows|
  {
    forall j :: i < j < |rows| ==> rows[j].orderId != rows[i].orderId
  }

  // ----- Appending a row

  lemma AppendOther(rows: seq<Order>, row: Order, oid: OrderId)
    requires row.orderId != oid
    ensures LatestIndex(rows + [row], oid) == LatestIndex(rows, oid)
    ensures LastIndex(rows + [row], oid) == LastIndex(rows, oid)
  {
    assert (rows + [row])[..|rows|] == rows;
  }

  lemma AppendOwn(rows: seq<Order>, row: Order)
    ensures LastIndex(rows + [row], row.orderId) == |rows|
    ensures var best := LatestIndex(rows, row.orderId);
            LatestIndex(rows + [row], row.orderId)
            == if best < 0 || rows[best].updatedAt <= row.updatedAt then |rows| else best
  {
    assert (rows + [row])[..|rows|] == rows;
  }

  lemma {:induction false} AppendedElsewhere(rows: seq<Order>, added: seq<Order>, oid: OrderId)
    requires forall i :: 0 <= i < |added| ==> added[i].orderId != oid
    ensures LatestIndex(rows + added, oid) == LatestIndex(rows, oid)
    ensures LastIndex(rows + added, oid) == LastIndex(rows, oid)
  {
    hide LatestIndex, LastIndex;
    if |added| == 0 {
      assert rows + added == rows;
    } else {
      var last := |added| - 1;
      AppendedElsewhere(rows, added[..last], oid);
      AppendOther(rows + added[..last], added[last], oid);
      assert rows + added == rows + added[..last] + [added[last]];
    }
  }

  /** Two readers, or a reader and the venue, have the same to say about one order. */
  predicate AgreeOn(a: map<OrderId, Order>, b: map<OrderId, Order>, oid: OrderId) {
    (oid in a <==> oid in b) && (oid in a ==> a[oid] == b[oid])
  }

  lemma AgreeEverywhere(a: map<OrderId, Order>, b: map<OrderId, Order>)
    requires forall k :: AgreeOn(a, b, k)
    ensures a == b
  {
    forall k | k in a
      ensures k in b && a[k] == b[k]
    {
      assert AgreeOn(a, b, k);
    }
    forall k | k in b
      ensures k in a && a[k] == b[k]
    {
      assert AgreeOn(a, b, k);
    }
  }

  /** Rows about other orders change nothing for either reader. */
  lemma ReadElsewhere(rows: seq<Order>, added: seq<Order>, oid: OrderId)
    requires forall i :: 0 <= i < |added| ==> added[i].orderId != oid
    ensures AgreeOn(ReadLatest(rows + added), ReadLatest(rows), oid)
    ensures AgreeOn(ReadLast(rows + added), ReadLast(rows), oid)
  {
    hide LatestIndex, LastIndex, Ids;
    AppendedElsewhere(rows, added, oid);
  }

  /** `latest` holds the last written row of every order that has one. */
  ghost predicate LastVersions(rows: seq<Order>, latest: map<OrderId, Order>) {
    && latest.Keys == Ids(rows)
    && forall k :: k in latest ==> latest[k] == rows[LastIndex(rows, k)]
  }

  lemma EmptyVersions()
    ensures LastVersions([], map[])
  {
  }

  lemma LastVersionsStep(rows: seq<Order>, i: int, latest: map<OrderId, Order>)
    requires 0 <= i < |rows| && LastVersions(rows[..i], latest)
    ensures LastVersions(rows[..i + 1], latest[rows[i].orderId := rows[i]])
  {
    var before, after := rows[..i], rows[..i + 1];
    assert after == before + [rows[i]];
    forall k
      ensures LastIndex(after, k) == if rows[i].orderId == k then i else LastIndex(before, k)
    {
      AppendOwn(before, rows[i]);
      if rows[i].orderId != k {
        AppendOther(before, rows[i], k);
      }
    }
  }

  // ----- The journal objects

  /** `SQLiteOrderJournal`'s two tables, row ids being positions. */
  class OrderJournal {
    var rows: seq<Order>
    var fills: seq<Fill>

    constructor ()
      ensures rows == [] && fills == []
    {
      rows, fills := [], [];
    }

    method WriteOrder(order: Order)
      modifies this`rows
      ensures rows == old(rows) + [order]
    {
      rows := rows + [order];
    }

    method WriteFill(fill: Fill)
      modifies this`fills
      ensures fills == old(fills) + [fill]
    {
      fills := fills + [fill];
    }

    /** The in-memory reader: a dictionary overwritten row by row, then filtered. */
    method ReadOpenLastWritten(symbol: Option<Symbol>) returns (open: map<OrderId, Order>)
      ensures open == OnlyOn(ReadLast(rows), symbol)
    {
      hide LatestIndex, LastIndex, Ids;
      EmptyVersions();
      var latest: map<OrderId, Order> := map[];
      for i := 0 to |rows|
        invariant LastVersions(rows[..i], latest)
      {
        LastVersionsStep(rows, i, latest);
        latest := latest[rows[i].orderId := rows[i]];
      }
      assert rows[..|rows|] == rows;
      open := map k | k in latest && !IsTerminal(latest[k].status) :: latest[k];
      assert open == ReadLast(rows);
      if symbol.Some? {
        open := map k | k in open && open[k].symbol == symbol.value :: open[k];
      }
    }
  }

  function OnlyOn(orders: map<OrderId, Order>, symbol: Option<Symbol>): map<OrderId, Order> {
    map k | k in orders && (symbol.Some? ==> orders[k].symbol == symbol.value) :: orders[k]
  }
}
