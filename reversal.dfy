/** Deleting a sale: every stock usage of the sale is credited back to its lot
    and to the product that owns the lot, newest movement date first; then
    the sale's usages are removed. */
module Reversal {
  import opened Models
  import opened Fifo
  import opened Allocation

  /** The usages of sale `sid` whose lot exists (the query joins usages with
      their stock movement), in insertion order. */
  function SaleUsages(us: seq<Usage>, sid: nat, n: nat): (r: seq<Usage>)
    ensures forall k :: 0 <= k < |r| ==> r[k].sale == sid && r[k].lot < n && r[k] in us
    ensures forall u :: u in us && u.sale == sid && u.lot < n ==> u in r
  {
    if us == [] then []
    else
      var last := us[|us| - 1];
      assert us == us[..|us| - 1] + [last];
      SaleUsages(us[..|us| - 1], sid, n) + (if last.sale == sid && last.lot < n then [last] else [])
  }

  /** The usages that survive the deletion of sale `sid`. */
  function Without(us: seq<Usage>, sid: nat): (r: seq<Usage>)
    ensures forall k :: 0 <= k < |r| ==> r[k].sale != sid && r[k] in us
    ensures forall u :: u in us && u.sale != sid ==> u in r
  {
    if us == [] then []
    else
      var last := us[|us| - 1];
      assert us == us[..|us| - 1] + [last];
      Without(us[..|us| - 1], sid) + (if last.sale != sid then [last] else [])
  }

  /** Newest movement date first. */
  function UsageKey(lots: seq<Lot>): Usage -> int
  {
    (u: Usage) => if u.lot < |lots| then -lots[u.lot].movementDate else 0
  }

  /** The order in which the handler walks the sale's usages. */
  function ReversalOrder(b: Books, sid: nat): seq<Usage>
  {
    SortBy(SaleUsages(b.usages, sid, |b.lots|), UsageKey(b.lots))
  }

  /** One pass of the reversal loop: give usage `u`'s quantity back to its lot
      and to the product owning the lot. */
  function Credit(b: Books, u: Usage): Books
    requires u.lot < |b.lots|
  {
    var lot := b.lots[u.lot];
    Books(b.lots[u.lot := lot.(remaining := lot.remaining + u.used)],
          if lot.product in b.products
          then b.products[lot.product := b.products[lot.product].(currentStock := b.products[lot.product].currentStock + u.used)]
          else b.products,
          b.usages)
  }

  predicate OnLots(us: seq<Usage>, lots: seq<Lot>)
  {
    forall k :: 0 <= k < |us| ==> us[k].lot < |lots|
  }

  /** The usages `us` credited back in order. Only remaining quantities and
      stock counters change. */
  function CreditAll(b: Books, us: seq<Usage>): (r: Books)
    requires OnLots(us, b.lots)
    ensures |r.lots| == |b.lots|
    ensures forall j :: 0 <= j < |b.lots| ==> r.lots[j] == b.lots[j].(remaining := r.lots[j].remaining)
    ensures r.products.Keys == b.products.Keys
    ensures forall p :: p in b.products ==> r.products[p].name == b.products[p].name
    ensures r.usages == b.usages
  {
    if us == [] then b
    else Credit(CreditAll(b, us[..|us| - 1]), us[|us| - 1])
  }

  /** The ledger after sale `sid` is deleted. */
  function Reverse(b: Books, sid: nat): Books
  {
    var order := ReversalOrder(b, sid);
    assert OnLots(order, b.lots) by {
      forall k | 0 <= k < |order| ensures order[k].lot < |b.lots| {
        assert order[k] in multiset(order);
      }
    }
    CreditAll(b, order).(usages := Without(b.usages, sid))
  }

  /** The reversal visits exactly the sale's usages, newest movement date
      first. */
  lemma ReversalOrderSpec(b: Books, sid: nat)
    ensures var o := ReversalOrder(b, sid);
      && multiset(o) == multiset(SaleUsages(b.usages, sid, |b.lots|))
      && (forall u :: u in o <==> u in b.usages && u.sale == sid && u.lot < |b.lots|)
      && OnLots(o, b.lots)
      && (forall x, y :: 0 <= x < y < |o| ==>
            b.lots[o[x].lot].movementDate >= b.lots[o[y].lot].movementDate)
  {
    var o := ReversalOrder(b, sid);
    var s := SaleUsages(b.usages, sid, |b.lots|);
    var key := UsageKey(b.lots);
    SortBySorted(s, key);
    forall u ensures u in o <==> u in s {
      assert u in o <==> u in multiset(o);
      assert u in s <==> u in multiset(s);
    }
    forall k | 0 <= k < |o| ensures o[k].lot < |b.lots| {
      assert o[k] in o;
    }
    forall x, y | 0 <= x < y < |o|
      ensures b.lots[o[x].lot].movementDate >= b.lots[o[y].lot].movementDate
    {
      assert key(o[x]) <= key(o[y]);
    }
  }

  /** Usages that draw a positive quantity draw a non-negative total. */
  lemma {:induction false} UsedOnNonNeg(us: seq<Usage>, j: nat)
    requires forall k :: 0 <= k < |us| ==> us[k].used > 0.0
    ensures UsedOn(us, j) >= 0.0
  {
    if us != [] {
      UsedOnNonNeg(us[..|us| - 1], j);
    }
  }

  /** The drawn total does not depend on the order of the usages. */
  lemma {:induction false} UsedOnPerm(a: seq<Usage>, b: seq<Usage>, j: nat)
    requires multiset(a) == multiset(b)
    ensures UsedOn(a, j) == UsedOn(b, j)
    decreases |a|
  {
    if a == [] {
      assert |b| == |multiset(b)| == 0;
    } else {
      var n := |a| - 1;
      var x := a[n];
      assert a == a[..n] + [x];
      assert x in multiset(b);
      var i :| 0 <= i < |b| && b[i] == x;
      var b' := b[..i] + b[i + 1..];
      assert b == b[..i] + [x] + b[i + 1..];
      assert multiset(a) == multiset(a[..n]) + multiset{x};
      assert multiset(b) == multiset(b[..i]) + multiset{x} + multiset(b[i + 1..]);
      assert multiset(b') == multiset(b[..i]) + multiset(b[i + 1..]);
      assert multiset(a[..n]) == multiset(a) - multiset{x};
      assert multiset(b') == multiset(b) - multiset{x};
      UsedOnPerm(a[..n], b', j);
      UsedOnConcat(b[..i], b[i + 1..], j);
      UsedOnConcat(b[..i] + [x], b[i + 1..], j);
      UsedOnAppend(b[..i], x, j);
    }
  }

  /** Every lot's drawn total splits into the sale's part and the rest. */
  lemma {:induction false} UsedOnSplit(us: seq<Usage>, sid: nat, n: nat, j: nat)
    requires j < n
    ensures UsedOn(us, j) == UsedOn(SaleUsages(us, sid, n), j) + UsedOn(Without(us, sid), j)
  {
    if us != [] {
      var m := |us| - 1;
      var last := us[m];
      UsedOnSplit(us[..m], sid, n, j);
      assert UsedOn(us, j) == UsedOn(us[..m], j) + (if last.lot == j then last.used else 0.0);
      if last.sale == sid && last.lot < n {
        assert SaleUsages(us, sid, n) == SaleUsages(us[..m], sid, n) + [last];
        assert Without(us, sid) == Without(us[..m], sid);
        UsedOnAppend(SaleUsages(us[..m], sid, n), last, j);
      } else if last.sale != sid {
        assert SaleUsages(us, sid, n) == SaleUsages(us[..m], sid, n);
        assert Without(us, sid) == Without(us[..m], sid) + [last];
        UsedOnAppend(Without(us[..m], sid), last, j);
      } else {
        assert SaleUsages(us, sid, n) == SaleUsages(us[..m], sid, n);
        assert Without(us, sid) == Without(us[..m], sid);
      }
    }
  }

  /** Crediting the usages `us` raises each lot by exactly what they drew from
      it, and keeps every product's drift. */
  lemma CreditAllEffect(b: Books, us: seq<Usage>)
    requires OnLots(us, b.lots)
    ensures forall j :: 0 <= j < |b.lots| ==>
      CreditAll(b, us).lots[j].remaining == b.lots[j].remaining + UsedOn(us, j)
    ensures forall p :: p in b.products ==> Drift(CreditAll(b, us), p) == Drift(b, p)
  {
    CreditAllLots(b, us);
    CreditAllDrift(b, us);
  }

  lemma {:induction false} CreditAllLots(b: Books, us: seq<Usage>)
    requires OnLots(us, b.lots)
    ensures forall j :: 0 <= j < |b.lots| ==>
      CreditAll(b, us).lots[j].remaining == b.lots[j].remaining + UsedOn(us, j)
  {
    if us != [] {
      CreditAllLots(b, us[..|us| - 1]);
    }
  }

  lemma {:induction false} CreditAllDrift(b: Books, us: seq<Usage>)
    requires OnLots(us, b.lots)
    ensures forall p :: p in b.products ==> Drift(CreditAll(b, us), p) == Drift(b, p)
  {
    if us != [] {
      var m := |us| - 1;
      var c := CreditAll(b, us[..m]);
      CreditAllDrift(b, us[..m]);
      forall p | p in b.products ensures Drift(Credit(c, us[m]), p) == Drift(c, p) {
        CreditDrift(c, us[m], p);
      }
    }
  }

  /** Giving one usage back moves the lot and its owner's counter alike. */
  lemma CreditDrift(c: Books, u: Usage, p: nat)
    requires u.lot < |c.lots| && p in c.products
    ensures Drift(Credit(c, u), p) == Drift(c, p)
  {
    StockOfUpdate(c.lots, u.lot, c.lots[u.lot].remaining + u.used, p);
  }


  /** Deleting a sale gives every lot back exactly what the sale drew from it,
      whatever the order of the walk, and leaves the other sales' usages
      untouched. */
  lemma ReverseLots(b: Books, sid: nat)
    ensures var r := Reverse(b, sid);
      && |r.lots| == |b.lots|
      && (forall j :: 0 <= j < |b.lots| ==>
            r.lots[j] == b.lots[j].(remaining := b.lots[j].remaining + UsedOn(SaleUsages(b.usages, sid, |b.lots|), j)))
      && r.usages == Without(b.usages, sid)
  {
    var order := ReversalOrder(b, sid);
    var s := SaleUsages(b.usages, sid, |b.lots|);
    ReversalOrderSpec(b, sid);
    CreditAllEffect(b, order);
    forall j | 0 <= j < |b.lots| ensures UsedOn(order, j) == UsedOn(s, j) {
      UsedOnPerm(order, s, j);
    }
  }

  /** Deleting a sale keeps every lot's accounting gap and every product's
      drift, and renames nothing. */
  lemma ReverseBalances(b: Books, sid: nat)
    ensures var r := Reverse(b, sid);
      && |r.lots| == |b.lots|
      && (forall j :: 0 <= j < |b.lots| ==> Gap(r, j) == Gap(b, j))
      && r.products.Keys == b.products.Keys
      && (forall p :: p in b.products ==> Drift(r, p) == Drift(b, p) && r.products[p].name == b.products[p].name)
  {
    ReverseGaps(b, sid);
    ReverseDrift(b, sid);
  }

  lemma ReverseGaps(b: Books, sid: nat)
    ensures |Reverse(b, sid).lots| == |b.lots|
    ensures forall j :: 0 <= j < |b.lots| ==> Gap(Reverse(b, sid), j) == Gap(b, j)
  {
    var r := Reverse(b, sid);
    ReverseLots(b, sid);
    forall j | 0 <= j < |b.lots| ensures Gap(r, j) == Gap(b, j) {
      UsedOnSplit(b.usages, sid, |b.lots|, j);
    }
  }

  lemma ReverseDrift(b: Books, sid: nat)
    ensures var r := Reverse(b, sid);
      && r.products.Keys == b.products.Keys
      && (forall p :: p in b.products ==> Drift(r, p) == Drift(b, p) && r.products[p].name == b.products[p].name)
  {
    ReversalOrderSpec(b, sid);
    CreditAllDrift(b, ReversalOrder(b, sid));
  }

  /** The usages left after deleting a sale belong to the other sales. */
  lemma WithoutLinked(b: Books, sales: set<nat>, sid: nat)
    requires Linked(b, sales)
    ensures var w := Without(b.usages, sid);
      forall k :: 0 <= k < |w| ==> w[k].lot < |b.lots| && w[k].sale in sales - {sid} && w[k].used > 0.0
  {
    var w := Without(b.usages, sid);
    forall k | 0 <= k < |w| ensures w[k].lot < |b.lots| && w[k].sale in sales - {sid} && w[k].used > 0.0 {
      var i :| 0 <= i < |b.usages| && b.usages[i] == w[k];
    }
  }

  /** Deleting a sale keeps the ledger consistent, with the sale gone. */
  lemma ReverseKeepsConsistent(b: Books, sales: set<nat>, sid: nat)
    requires Consistent(b, sales)
    ensures Consistent(Reverse(b, sid), sales - {sid})
  {
    ReverseLinked(b, sales, sid);
    ReverseBounded(b, sales, sid);
    ReverseBalances(b, sid);
  }

  /** Reversal keeps every lot owned by a product and every remaining usage
      tied to a lot and a sale still on record. */
  lemma ReverseLinked(b: Books, sales: set<nat>, sid: nat)
    requires Linked(b, sales)
    ensures Linked(Reverse(b, sid), sales - {sid})
  {
    ReverseLots(b, sid);
    ReverseBalances(b, sid);
    WithoutLinked(b, sales, sid);
  }

  /** Giving a sale's usages back keeps every lot between empty and full. */
  lemma ReverseBounded(b: Books, sales: set<nat>, sid: nat)
    requires Consistent(b, sales)
    ensures Bounded(Reverse(b, sid).lots)
  {
    ReverseLots(b, sid);
    SaleUsagesPositive(b, sales, sid);
    forall j | 0 <= j < |b.lots| ensures 0.0 <= b.lots[j].remaining + UsedOn(SaleUsages(b.usages, sid, |b.lots|), j) <= b.lots[j].initial {
      ReverseLotBounded(b, sales, sid, j);
    }
  }

  lemma SaleUsagesPositive(b: Books, sales: set<nat>, sid: nat)
    requires Linked(b, sales)
    ensures var s := SaleUsages(b.usages, sid, |b.lots|);
      forall k :: 0 <= k < |s| ==> s[k].used > 0.0
  {
    var s := SaleUsages(b.usages, sid, |b.lots|);
    forall k | 0 <= k < |s| ensures s[k].used > 0.0 {
      var i :| 0 <= i < |b.usages| && b.usages[i] == s[k];
    }
  }

  lemma ReverseLotBounded(b: Books, sales: set<nat>, sid: nat, j: nat)
    requires Consistent(b, sales) && j < |b.lots|
    requires var s := SaleUsages(b.usages, sid, |b.lots|);
      forall k :: 0 <= k < |s| ==> s[k].used > 0.0
    ensures 0.0 <= b.lots[j].remaining + UsedOn(SaleUsages(b.usages, sid, |b.lots|), j) <= b.lots[j].initial
  {
    var s := SaleUsages(b.usages, sid, |b.lots|);
    var w := Without(b.usages, sid);
    UsedOnSplit(b.usages, sid, |b.lots|, j);
    UsedOnNonNeg(s, j);
    UsedOnNonNeg(w, j);
    assert Gap(b, j) == 0.0;
  }



  /** Usages of sale `sid` appended to a ledger vanish with the sale. */
  lemma {:induction false} WithoutAppended(us: seq<Usage>, extra: seq<Usage>, sid: nat)
    requires forall k :: 0 <= k < |extra| ==> extra[k].sale == sid
    ensures Without(us + extra, sid) == Without(us, sid)
    decreases |extra|
  {
    if extra == [] {
      assert us + extra == us;
    } else {
      var m := |extra| - 1;
      assert us + extra == (us + extra[..m]) + [extra[m]];
      WithoutAppended(us, extra[..m], sid);
    }
  }

  lemma {:induction false} WithoutNone(us: seq<Usage>, sid: nat)
    requires forall k :: 0 <= k < |us| ==> us[k].sale != sid
    ensures Without(us, sid) == us
  {
    if us != [] {
      WithoutNone(us[..|us| - 1], sid);
    }
  }

  /** Two ledgers over the same lots, products and usages that agree on every
      lot's gap and every product's drift are the same ledger. */
  lemma SameBalances(x: Books, y: Books)
    requires |x.lots| == |y.lots| && x.usages == y.usages
    requires forall j :: 0 <= j < |y.lots| ==> x.lots[j] == y.lots[j].(remaining := x.lots[j].remaining)
    requires forall j :: 0 <= j < |y.lots| ==> Gap(x, j) == Gap(y, j)
    requires x.products.Keys == y.products.Keys
    requires forall p :: p in y.products ==> x.products[p].name == y.products[p].name && Drift(x, p) == Drift(y, p)
    ensures x == y
  {
    forall j | 0 <= j < |y.lots| ensures x.lots[j] == y.lots[j] {
      assert Gap(x, j) == Gap(y, j);
    }
    assert x.lots == y.lots;
    forall p | p in y.products ensures x.products[p] == y.products[p] {
      assert Drift(x, p) == Drift(y, p);
    }
    assert x.products == y.products;
  }

  /** Ledger `a` differs from `b` only by quantities that sale `sid`'s usages
      account for: same lots up to their remaining quantities, the same gaps
      and drifts, the same product names and the same other usages. */
  predicate Reversible(a: Books, b: Books, sid: nat)
  {
    && |a.lots| == |b.lots|
    && (forall j :: 0 <= j < |b.lots| ==> a.lots[j] == b.lots[j].(remaining := a.lots[j].remaining))
    && (forall j :: 0 <= j < |b.lots| ==> Gap(a, j) == Gap(b, j))
    && a.products.Keys == b.products.Keys
    && (forall p :: p in b.products ==> a.products[p].name == b.products[p].name && Drift(a, p) == Drift(b, p))
    && Without(a.usages, sid) == Without(b.usages, sid)
  }

  lemma ReversibleTrans(a: Books, b: Books, c: Books, sid: nat)
    requires Reversible(a, b, sid) && Reversible(b, c, sid)
    ensures Reversible(a, c, sid)
  {
  }

  /** An allocation for sale `sid` is something deleting `sid` can undo. */
  lemma AllocateReversible(b: Books, sid: nat, order: seq<nat>, need: real)
    requires WithinLots(order, b.lots)
    ensures Reversible(Allocate(b, sid, order, need), b, sid)
  {
    var t := Takes(Rows(order, b.lots), need);
    var a := Allocate(b, sid, order, need);
    ApplyBalances(b, sid, order, t);
    TakenUsages(b, sid, order, t);
    assert a.usages == b.usages + a.usages[|b.usages|..];
    WithoutAppended(b.usages, a.usages[|b.usages|..], sid);
  }

  /** Deleting sale `sid` from two ledgers that differ only by what its usages
      account for gives the same ledger. */
  lemma ReverseReversible(a: Books, b: Books, sid: nat)
    requires Reversible(a, b, sid)
    ensures Reverse(a, sid) == Reverse(b, sid)
  {
    ReverseLots(a, sid);
    ReverseBalances(a, sid);
    ReverseLots(b, sid);
    ReverseBalances(b, sid);
    SameBalances(Reverse(a, sid), Reverse(b, sid));
  }

  lemma {:induction false} SaleUsagesNone(us: seq<Usage>, sid: nat, n: nat)
    requires forall k :: 0 <= k < |us| ==> us[k].sale != sid
    ensures SaleUsages(us, sid, n) == []
  {
    if us != [] {
      SaleUsagesNone(us[..|us| - 1], sid, n);
    }
  }

  /** Deleting a sale without usages changes no lot, product or usage. */
  lemma ReverseUnused(b: Books, sid: nat)
    requires forall k :: 0 <= k < |b.usages| ==> b.usages[k].sale != sid
    ensures Reverse(b, sid) == b
  {
    SaleUsagesNone(b.usages, sid, |b.lots|);
    WithoutNone(b.usages, sid);
  }

  /** Deleting a sale right after creating it restores the ledger exactly:
      lots, stock counters and usages. */
  lemma AllocateThenReverse(b: Books, sid: nat, order: seq<nat>, need: real)
    requires forall k :: 0 <= k < |b.usages| ==> b.usages[k].sale != sid
    requires WithinLots(order, b.lots)
    ensures Reverse(Allocate(b, sid, order, need), sid) == b
  {
    AllocateReversible(b, sid, order, need);
    ReverseReversible(Allocate(b, sid, order, need), b, sid);
    ReverseUnused(b, sid);
  }
}
