/** The costing query: for a product name and an optional sale quantity,
    walk the name group's lots with stock in creation order and report the
    weighted average cost, the stock and its value, the cost of the next unit
    and the FIFO cost per unit of the requested quantity. */
module Costing {
  import opened Models
  import opened Fifo
  import opened Allocation

  /** The five figures of a quotation. */
  datatype Figures = Figures(averagePrice: real, totalStock: real, totalStockValue: real,
                             nextFifoCost: real, fifoCost: real)

  /** Stock value: sum of remaining quantity times unit cost. */
  function Value(rows: seq<Lot>): real
  {
    if rows == [] then 0.0 else rows[0].remaining * rows[0].unitCost + Value(rows[1..])
  }

  /** The `nextFIFOCost` the walk settles on. The walk only replaces a zero
      value, so a lot whose unit cost is zero is passed over. */
  function NextCost(rows: seq<Lot>): real
  {
    if rows == [] then 0.0
    else if rows[0].remaining > 0.0 && rows[0].unitCost != 0.0 then rows[0].unitCost
    else NextCost(rows[1..])
  }

  /** Price of the takes `t` from the first |t| rows. */
  function Cost(rows: seq<Lot>, t: seq<real>): real
    requires |t| <= |rows|
  {
    if t == [] then 0.0 else t[0] * rows[0].unitCost + Cost(rows[1..], t[1..])
  }

  /** Price of the first `q` units in walk order. */
  function FifoValue(rows: seq<Lot>, q: real): real
  {
    Cost(rows, Takes(rows, q))
  }

  /** The figures the query reports for rows `rows` and sale quantity `q`, or
      the error it reports when `q` exceeds the stock. */
  function Quote(rows: seq<Lot>, q: real): Result<Figures>
  {
    var total := Avail(rows);
    var value := Value(rows);
    if q > total then Err(InsufficientStock)
    else Ok(Figures(if total > 0.0 then value / total else 0.0,
                    total, value, NextCost(rows),
                    if q > 0.0 then FifoValue(rows, q) / q else 0.0))
  }

  /** The rows the costing query returns for the name `name`. */
  function CostingRows(b: Books, name: string): seq<Lot>
  {
    FifoOrderWithin(b.lots, b.products, name, ByCreatedAt);
    Rows(CostingOrder(b.lots, b.products, name), b.lots)
  }

  /** The costing query's answer: a name is required, the quantity must
      parse (an absent quantity reads as 0), and then the figures are
      quoted over the rows of that name. */
  function AveragePrice(b: Books, name: string, quantity: Option<real>): Result<Figures>
  {
    if name == "" then Err(NameRequired)
    else if quantity.None? then Err(InvalidQuantity)
    else Quote(CostingRows(b, name), quantity.value)
  }

  /** The handler's single pass over the rows. */
  method Evaluate(rows: seq<Lot>, q: real) returns (r: Result<Figures>)
    ensures r == Quote(rows, q)
  {
    var totalStock := 0.0;
    var totalValue := 0.0;
    var nextFifoCost := 0.0;
    var fifoValue := 0.0;
    var remainingQty := q;
    var i := 0;
    while i < |rows|
      invariant 0 <= i <= |rows|
      invariant totalStock + Avail(rows[i..]) == Avail(rows)
      invariant totalValue + Value(rows[i..]) == Value(rows)
      invariant nextFifoCost != 0.0 ==> nextFifoCost == NextCost(rows)
      invariant nextFifoCost == 0.0 ==> NextCost(rows[i..]) == NextCost(rows)
      invariant fifoValue + FifoValue(rows[i..], remainingQty) == FifoValue(rows, q)
    {
      var m := rows[i];
      var useQty := Min(remainingQty, m.remaining);
      var left := remainingQty - useQty;
      var worth := m.remaining * m.unitCost;
      var price := useQty * m.unitCost;
      WalkStep(rows, i, remainingQty, useQty, left, worth, price);
      totalStock := totalStock + m.remaining;
      totalValue := totalValue + worth;
      if nextFifoCost == 0.0 && m.remaining > 0.0 {
        nextFifoCost := m.unitCost;
      }
      if remainingQty > 0.0 {
        fifoValue := fifoValue + price;
        remainingQty := left;
      }
      i := i + 1;
    }
    assert rows[i..] == [];
    var averagePrice := 0.0;
    if totalStock > 0.0 {
      averagePrice := totalValue / totalStock;
    }
    if q > totalStock {
      return Err(InsufficientStock);
    }
    var fifoCost := 0.0;
    if q > 0.0 && q <= totalStock {
      fifoCost := fifoValue / q;
    }
    r := Ok(Figures(averagePrice, totalStock, totalValue, nextFifoCost, fifoCost));
  }

  /** One row of the walk: how each figure over rows[i..] splits into row i
      and the rest. */
  lemma WalkStep(rows: seq<Lot>, i: nat, rq: real, use: real, left: real, worth: real, price: real)
    requires i < |rows| && use == Min(rq, rows[i].remaining) && left == rq - use
    requires worth == rows[i].remaining * rows[i].unitCost && price == use * rows[i].unitCost
    ensures Avail(rows[i..]) == rows[i].remaining + Avail(rows[i + 1..])
    ensures Value(rows[i..]) == worth + Value(rows[i + 1..])
    ensures NextCost(rows[i..]) == if rows[i].remaining > 0.0 && rows[i].unitCost != 0.0 then rows[i].unitCost else NextCost(rows[i + 1..])
    ensures rq > 0.0 ==> FifoValue(rows[i..], rq) == price + FifoValue(rows[i + 1..], left)
    ensures rq <= 0.0 ==> FifoValue(rows[i..], rq) == 0.0 == FifoValue(rows[i + 1..], rq)
  {
    assert rows[i..][1..] == rows[i + 1..];
    FifoStep(rows[i..], rq, use, left, price);
  }

  /** The FIFO value of a need splits into the first row's take and the
      value of what is still needed over the rest. */
  lemma FifoStep(rows: seq<Lot>, rq: real, use: real, left: real, price: real)
    requires rows != [] && use == Min(rq, rows[0].remaining) && left == rq - use
    requires price == use * rows[0].unitCost
    ensures rq > 0.0 ==> FifoValue(rows, rq) == price + FifoValue(rows[1..], left)
  {
    if rq > 0.0 {
      var t := Takes(rows, rq);
      assert t == [use] + Takes(rows[1..], left);
      assert t[1..] == Takes(rows[1..], left);
    }
  }

  /** The next FIFO cost is the unit cost of the first row with stock and a
      non-zero cost, and zero when there is no such row. */
  lemma {:induction false} NextCostSpec(rows: seq<Lot>)
    ensures var c := NextCost(rows);
      && (c != 0.0 ==> exists k :: 0 <= k < |rows| && rows[k].remaining > 0.0 && rows[k].unitCost == c
                        && forall i :: 0 <= i < k ==> rows[i].remaining <= 0.0 || rows[i].unitCost == 0.0)
      && (c == 0.0 <==> forall k :: 0 <= k < |rows| ==> rows[k].remaining <= 0.0 || rows[k].unitCost == 0.0)
  {
    if rows != [] {
      NextCostSpec(rows[1..]);
      if !(rows[0].remaining > 0.0 && rows[0].unitCost != 0.0) && NextCost(rows) != 0.0 {
        var k :| 0 <= k < |rows[1..]| && rows[1..][k].remaining > 0.0 && rows[1..][k].unitCost == NextCost(rows)
                 && forall i :: 0 <= i < k ==> rows[1..][i].remaining <= 0.0 || rows[1..][i].unitCost == 0.0;
        assert forall i :: 0 <= i < k + 1 ==> rows[i].remaining <= 0.0 || rows[i].unitCost == 0.0 by {
          forall i | 0 <= i < k + 1 ensures rows[i].remaining <= 0.0 || rows[i].unitCost == 0.0 {
            if i > 0 {
              assert rows[i] == rows[1..][i - 1];
            }
          }
        }
        assert rows[k + 1] == rows[1..][k];
      }
      if NextCost(rows) == 0.0 {
        forall k | 0 <= k < |rows| ensures rows[k].remaining <= 0.0 || rows[k].unitCost == 0.0 {
          if k > 0 {
            assert rows[k] == rows[1..][k - 1];
          }
        }
      }
    }
  }

  /** The quantity a sale of `q` would draw from each lot, priced at the
      lot's unit cost, is the query's FIFO value: the costing walk and the
      allocator take the same amounts from the same rows. */
  function UsageCost(us: seq<Usage>, lots: seq<Lot>): real
  {
    if us == [] then 0.0
    else (if us[0].lot < |lots| then us[0].used * lots[us[0].lot].unitCost else 0.0) + UsageCost(us[1..], lots)
  }

  lemma {:induction false} UsageCostIsCost(us: seq<Usage>, order: seq<nat>, t: seq<real>, lots: seq<Lot>, sid: nat)
    requires |us| == |t| <= |order| && WithinLots(order, lots)
    requires forall k :: 0 <= k < |t| ==> us[k] == Usage(sid, order[k], t[k])
    ensures UsageCost(us, lots) == Cost(Rows(order, lots), t)
  {
    if t != [] {
      assert Rows(order, lots)[1..] == Rows(order[1..], lots);
      UsageCostIsCost(us[1..], order[1..], t[1..], lots, sid);
    }
  }

  /** What the allocator draws for a sale of `q`, priced at its lots' unit
      costs, is the FIFO value the costing walk reports for `q` over the
      same order. */
  lemma AllocationCost(b: Books, sid: nat, order: seq<nat>, q: real)
    requires WithinLots(order, b.lots)
    ensures UsageCost(Allocate(b, sid, order, q).usages[|b.usages|..], b.lots) == FifoValue(Rows(order, b.lots), q)
  {
    var t := Takes(Rows(order, b.lots), q);
    TakenUsages(b, sid, order, t);
    UsageCostIsCost(Allocate(b, sid, order, q).usages[|b.usages|..], order, t, b.lots, sid);
  }

  /** When the creation order and the movement-date order agree on a product's
      name group, the costing query walks the lots the allocator walks, in the
      same order. */
  lemma CostingMatchesSale(lots: seq<Lot>, products: map<nat, Product>, pid: nat)
    requires pid in products
    requires forall i: nat, j: nat :: InGroup(lots, products, products[pid].name, i) && InGroup(lots, products, products[pid].name, j) ==>
      (lots[i].createdAt <= lots[j].createdAt <==> lots[i].movementDate <= lots[j].movementDate)
    ensures CostingOrder(lots, products, products[pid].name) == SaleOrder(lots, products, pid)
  {
    var g := GroupLots(lots, products, products[pid].name, |lots|);
    SortByAgree(g, LotKey(lots, ByCreatedAt), LotKey(lots, ByMovementDate));
  }

  /** Two lots of one product: the later-created one carries the earlier
      invoice date. */
  function TwoLots(): seq<Lot>
  {
    [Lot(1, 5.0, 5.0, 10.0, 2, 1), Lot(1, 5.0, 5.0, 20.0, 1, 2)]
  }

  function Flour(): map<nat, Product>
  {
    map[1 := Product("flour", 10.0)]
  }

  lemma TwoLotsGroup()
    ensures GroupLots(TwoLots(), Flour(), "flour", 2) == [0, 1]
  {
    assert InGroup(TwoLots(), Flour(), "flour", 0) && InGroup(TwoLots(), Flour(), "flour", 1);
    assert GroupLots(TwoLots(), Flour(), "flour", 0) == [];
    assert GroupLots(TwoLots(), Flour(), "flour", 1) == [0];
  }

  /** The costing query prices the older record first while a sale draws
      from the earlier invoice first. */
  lemma CostingDiverges()
    ensures CostingOrder(TwoLots(), Flour(), "flour") == [0, 1]
    ensures SaleOrder(TwoLots(), Flour(), 1) == [1, 0]
  {
    CreatedFirst();
    DatedFirst();
  }

  lemma CreatedFirst()
    ensures CostingOrder(TwoLots(), Flour(), "flour") == [0, 1]
  {
    TwoLotsGroup();
    var one: seq<nat> := [1];
    var none: seq<nat> := [];
    var byCreated := LotKey(TwoLots(), ByCreatedAt);
    assert SortBy(one, byCreated) == one by {
      assert one[1..] == none;
    }
    assert [0, 1][1..] == one;
    assert Insert(0, one, byCreated) == [0, 1];
  }

  lemma DatedFirst()
    ensures SaleOrder(TwoLots(), Flour(), 1) == [1, 0]
  {
    TwoLotsGroup();
    var one: seq<nat> := [1];
    var none: seq<nat> := [];
    var byDate := LotKey(TwoLots(), ByMovementDate);
    assert SortBy(one, byDate) == one by {
      assert one[1..] == none;
    }
    assert [0, 1][1..] == one;
    assert Insert(0, one, byDate) == [1, 0] by {
      assert Insert(0, none, byDate) == [0];
    }
  }

  /** With every row holding stock, a request for the whole stock costs the
      whole stock value. */
  lemma {:induction false} TakeAllValue(rows: seq<Lot>)
    requires forall k :: 0 <= k < |rows| ==> rows[k].remaining > 0.0
    ensures FifoValue(rows, Avail(rows)) == Value(rows)
  {
    if rows != [] {
      var rest := rows[1..];
      assert Avail(rest) >= 0.0;
      TakeAllValue(rest);
      var t := Takes(rows, Avail(rows));
      assert t == [rows[0].remaining] + Takes(rest, Avail(rest));
    }
  }

  /** Selling the whole stock costs, per unit, exactly the average price. */
  lemma WholeStockAtAverage(rows: seq<Lot>)
    requires forall k :: 0 <= k < |rows| ==> rows[k].remaining > 0.0
    requires Avail(rows) > 0.0
    ensures Quote(rows, Avail(rows)).Ok?
    ensures Quote(rows, Avail(rows)).value.fifoCost == Quote(rows, Avail(rows)).value.averagePrice
  {
    TakeAllValue(rows);
  }

  /** With unit costs between `lo` and `hi`, the price of takes summing to s
      lies between lo * s and hi * s. */
  lemma {:induction false} CostBounds(rows: seq<Lot>, t: seq<real>, lo: real, hi: real)
    requires |t| <= |rows|
    requires forall k :: 0 <= k < |t| ==> t[k] >= 0.0 && lo <= rows[k].unitCost <= hi
    ensures lo * Sum(t) <= Cost(rows, t) <= hi * Sum(t)
  {
    if t != [] {
      CostBounds(rows[1..], t[1..], lo, hi);
      BoundStep(t[0], rows[0].unitCost, Sum(t[1..]), Cost(rows[1..], t[1..]), lo, hi);
    }
  }

  lemma BoundStep(x: real, c: real, s: real, v: real, lo: real, hi: real)
    requires x >= 0.0 && lo <= c <= hi && lo * s <= v <= hi * s
    ensures lo * (x + s) <= x * c + v <= hi * (x + s)
  {
    MulMono(x, lo, c);
    MulMono(x, c, hi);
  }

  lemma MulMono(x: real, a: real, b: real)
    requires x >= 0.0 && a <= b
    ensures x * a <= x * b
  {
    assert x * b - x * a == x * (b - a);
  }

  /** Over lots with stock whose unit costs lie between `lo` and `hi`, the
      FIFO cost of any quantity the stock covers lies between them too. */
  lemma {:induction false} FifoCostBounds(rows: seq<Lot>, q: real, lo: real, hi: real)
    requires forall k :: 0 <= k < |rows| ==> rows[k].remaining > 0.0 && lo <= rows[k].unitCost <= hi
    requires 0.0 < q <= Avail(rows)
    ensures Quote(rows, q).Ok?
    ensures lo <= Quote(rows, q).value.fifoCost <= hi
  {
    FifoValueBounds(rows, q, lo, hi);
    DivBounds(FifoValue(rows, q), q, lo, hi);
  }

  lemma {:induction false} FifoValueBounds(rows: seq<Lot>, q: real, lo: real, hi: real)
    requires forall k :: 0 <= k < |rows| ==> rows[k].remaining > 0.0 && lo <= rows[k].unitCost <= hi
    requires 0.0 < q <= Avail(rows)
    ensures lo * q <= FifoValue(rows, q) <= hi * q
  {
    var t := Takes(rows, q);
    TakesCover(rows, q);
    assert forall k :: 0 <= k < |t| ==> t[k] >= 0.0 && lo <= rows[k].unitCost <= hi;
    CostBounds(rows, t, lo, hi);
    assert FifoValue(rows, q) == Cost(rows, t);
  }

  lemma TakesCover(rows: seq<Lot>, q: real)
    requires forall k :: 0 <= k < |rows| ==> rows[k].remaining > 0.0
    requires 0.0 <= q <= Avail(rows)
    ensures Sum(Takes(rows, q)) == q
    ensures forall k :: 0 <= k < |Takes(rows, q)| ==> Takes(rows, q)[k] > 0.0
  {
    TakesShape(rows, q);
  }

  lemma DivBounds(v: real, q: real, lo: real, hi: real)
    requires q > 0.0 && lo * q <= v <= hi * q
    ensures lo <= v / q <= hi
  {
    assert v / q * q == v;
    if v / q < lo {
      MulMono(q, v / q, lo);
    }
    if v / q > hi {
      MulMono(q, hi, v / q);
    }
  }

  /** Five units at 10 and five at 20: seven units cost 5 * 10 + 2 * 20 = 90,
      the average is 15 and the next unit costs 10. */
  lemma SevenOfTen()
    ensures Quote([Lot(1, 5.0, 5.0, 10.0, 1, 1), Lot(1, 5.0, 5.0, 20.0, 2, 2)], 7.0)
         == Ok(Figures(15.0, 10.0, 150.0, 10.0, 90.0 / 7.0))
  {
    var rows := [Lot(1, 5.0, 5.0, 10.0, 1, 1), Lot(1, 5.0, 5.0, 20.0, 2, 2)];
    assert rows[1..] == [Lot(1, 5.0, 5.0, 20.0, 2, 2)];
    assert Takes(rows, 7.0) == [5.0, 2.0];
    assert FifoValue(rows, 7.0) == 90.0;
  }
}
