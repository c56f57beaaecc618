/** The FIFO selector shared by the allocator and the costing query: which
    lots a product-name group draws from, in which order, and how much the
    min-walk takes from each. */
module Fifo {
  import opened Models

  /** Stable insertion of `x` in front of the first element whose key is not
      smaller. */
  function Insert<T>(x: T, s: seq<T>, key: T -> int): (r: seq<T>)
    ensures multiset(r) == multiset(s) + multiset{x}
  {
    if s == [] || key(x) <= key(s[0]) then [x] + s
    else
      assert s == [s[0]] + s[1..];
      [s[0]] + Insert(x, s[1..], key)
  }

  /** The database's ORDER BY: a stable sort by `key`, so rows with equal keys
      keep the order in which they were listed. */
  function SortBy<T>(s: seq<T>, key: T -> int): (r: seq<T>)
    ensures multiset(r) == multiset(s)
  {
    if s == [] then []
    else
      assert s == [s[0]] + s[1..];
      Insert(s[0], SortBy(s[1..], key), key)
  }

  predicate SortedBy<T>(s: seq<T>, key: T -> int)
  {
    forall a, b :: 0 <= a < b < |s| ==> key(s[a]) <= key(s[b])
  }

  /** Sorted by key, ties in ascending id order; in particular no id twice. */
  predicate LexSorted(s: seq<nat>, key: nat -> int)
  {
    forall a, b :: 0 <= a < b < |s| ==> key(s[a]) < key(s[b]) || (key(s[a]) == key(s[b]) && s[a] < s[b])
  }

  lemma {:induction false} InsertSorted<T>(x: T, s: seq<T>, key: T -> int)
    requires SortedBy(s, key)
    ensures SortedBy(Insert(x, s, key), key)
  {
    if s != [] && key(x) > key(s[0]) {
      var r' := Insert(x, s[1..], key);
      InsertSorted(x, s[1..], key);
      forall b | 0 <= b < |r'| ensures key(s[0]) <= key(r'[b]) {
        assert r'[b] in multiset(r');
        if r'[b] != x {
          assert r'[b] in multiset(s[1..]);
          var i :| 0 <= i < |s[1..]| && s[1..][i] == r'[b];
          assert s[1 + i] == r'[b];
        }
      }
    }
  }

  lemma {:induction false} SortBySorted<T>(s: seq<T>, key: T -> int)
    ensures SortedBy(SortBy(s, key), key)
  {
    if s != [] {
      SortBySorted(s[1..], key);
      InsertSorted(s[0], SortBy(s[1..], key), key);
    }
  }

  lemma {:induction false} InsertLex(x: nat, s: seq<nat>, key: nat -> int)
    requires LexSorted(s, key)
    requires forall y :: y in s ==> x < y
    ensures LexSorted(Insert(x, s, key), key)
  {
    if s != [] && key(x) > key(s[0]) {
      forall y | y in s[1..] ensures x < y {
        assert y in s;
      }
      InsertLex(x, s[1..], key);
      InsertLexPast(x, s, key);
    } else if s != [] {
      InsertLexFront(x, s, key);
    }
  }

  /** An element keyed after the head goes past it. */
  lemma InsertLexPast(x: nat, s: seq<nat>, key: nat -> int)
    requires s != [] && key(x) > key(s[0])
    requires LexSorted(s, key) && LexSorted(Insert(x, s[1..], key), key)
    ensures LexSorted(Insert(x, s, key), key)
  {
    var r' := Insert(x, s[1..], key);
    forall b | 0 <= b < |r'|
      ensures key(s[0]) < key(r'[b]) || (key(s[0]) == key(r'[b]) && s[0] < r'[b])
    {
      assert r'[b] in multiset(r');
      if r'[b] != x {
        assert r'[b] in multiset(s[1..]);
        var i :| 0 <= i < |s[1..]| && s[1..][i] == r'[b];
        assert s[1 + i] == r'[b];
      }
    }
  }

  /** An element keyed no later than the head, and smaller than every id,
      goes in front. */
  lemma InsertLexFront(x: nat, s: seq<nat>, key: nat -> int)
    requires s != [] && key(x) <= key(s[0])
    requires LexSorted(s, key)
    requires forall y :: y in s ==> x < y
    ensures LexSorted(Insert(x, s, key), key)
  {
    assert SortedBy(s, key) by {
      forall a, b | 0 <= a < b < |s| ensures key(s[a]) <= key(s[b]) { }
    }
    forall b | 0 <= b < |s| ensures key(x) <= key(s[b]) && x < s[b] {
      assert s[b] in s;
    }
    assert Insert(x, s, key) == [x] + s;
  }

  /** Sorting lots listed in ascending id order yields the FIFO order with
      the lot id as tie-break. */
  lemma {:induction false} SortByLex(s: seq<nat>, key: nat -> int)
    requires forall a, b :: 0 <= a < b < |s| ==> s[a] < s[b]
    ensures LexSorted(SortBy(s, key), key)
  {
    if s != [] {
      SortByLex(s[1..], key);
      forall y | y in SortBy(s[1..], key) ensures s[0] < y {
        assert y in multiset(SortBy(s[1..], key));
        var i :| 0 <= i < |s[1..]| && s[1..][i] == y;
      }
      InsertLex(s[0], SortBy(s[1..], key), key);
    }
  }

  lemma {:induction false} InsertAgree<T>(x: T, s: seq<T>, k1: T -> int, k2: T -> int)
    requires forall y :: y in s ==> (k1(x) <= k1(y) <==> k2(x) <= k2(y))
    ensures Insert(x, s, k1) == Insert(x, s, k2)
  {
    if s != [] {
      assert s[0] in s;
      InsertAgree(x, s[1..], k1, k2);
    }
  }

  /** Two keys that order the elements alike give the same sorted sequence. */
  lemma {:induction false} SortByAgree<T>(s: seq<T>, k1: T -> int, k2: T -> int)
    requires forall x, y :: x in s && y in s ==> (k1(x) <= k1(y) <==> k2(x) <= k2(y))
    ensures SortBy(s, k1) == SortBy(s, k2)
  {
    if s != [] {
      SortByAgree(s[1..], k1, k2);
      var rest := SortBy(s[1..], k1);
      forall y | y in rest ensures k1(s[0]) <= k1(y) <==> k2(s[0]) <= k2(y) {
        assert y in multiset(rest);
        assert y in s[1..];
      }
      InsertAgree(s[0], rest, k1, k2);
    }
  }

  /** The column a query orders its lots by. */
  datatype OrderKey = ByMovementDate | ByCreatedAt

  function KeyOf(l: Lot, k: OrderKey): int
  {
    match k
    case ByMovementDate => l.movementDate
    case ByCreatedAt => l.createdAt
  }

  function LotKey(lots: seq<Lot>, k: OrderKey): nat -> int
  {
    (j: nat) => if j < |lots| then KeyOf(lots[j], k) else 0
  }

  /** Lot `j` still holds stock and belongs to a product named `name`. */
  predicate InGroup(lots: seq<Lot>, products: map<nat, Product>, name: string, j: nat)
  {
    j < |lots| && lots[j].remaining > 0.0 && lots[j].product in products
    && products[lots[j].product].name == name
  }

  /** The ids below `n` of the lots in group `name`, in ascending id order. */
  function GroupLots(lots: seq<Lot>, products: map<nat, Product>, name: string, n: nat): (r: seq<nat>)
    requires n <= |lots|
    ensures forall j: nat :: j in r <==> j < n && InGroup(lots, products, name, j)
    ensures forall a, b :: 0 <= a < b < |r| ==> r[a] < r[b]
  {
    if n == 0 then []
    else
      var r' := GroupLots(lots, products, name, n - 1);
      assert forall a :: 0 <= a < |r'| ==> r'[a] < n - 1 by {
        forall a | 0 <= a < |r'| ensures r'[a] < n - 1 {
          assert r'[a] in r';
        }
      }
      r' + (if InGroup(lots, products, name, n - 1) then [n - 1] else [])
  }

  /** The lots a query for product name `name` returns, ordered by key `k`. */
  function FifoOrder(lots: seq<Lot>, products: map<nat, Product>, name: string, k: OrderKey): seq<nat>
  {
    SortBy(GroupLots(lots, products, name, |lots|), LotKey(lots, k))
  }

  /** The allocator's query: lots with stock whose product has the same name
      as product `pid`, oldest movement date first. */
  function SaleOrder(lots: seq<Lot>, products: map<nat, Product>, pid: nat): seq<nat>
  {
    if pid in products then FifoOrder(lots, products, products[pid].name, ByMovementDate) else []
  }

  /** The costing query: lots with stock of products named `name`, oldest
      creation time first. */
  function CostingOrder(lots: seq<Lot>, products: map<nat, Product>, name: string): seq<nat>
  {
    FifoOrder(lots, products, name, ByCreatedAt)
  }

  predicate WithinLots(order: seq<nat>, lots: seq<Lot>)
  {
    forall k :: 0 <= k < |order| ==> order[k] < |lots|
  }

  /** Stock held by the lots listed in `order` (ids past the end hold
      none). */
  function Held(order: seq<nat>, lots: seq<Lot>): real
  {
    if order == [] then 0.0
    else (if order[0] < |lots| then lots[order[0]].remaining else 0.0) + Held(order[1..], lots)
  }

  lemma {:induction false} HeldIsAvail(order: seq<nat>, lots: seq<Lot>)
    requires WithinLots(order, lots)
    ensures Held(order, lots) == Avail(Rows(order, lots))
  {
    if order != [] {
      HeldIsAvail(order[1..], lots);
      assert Rows(order, lots)[1..] == Rows(order[1..], lots);
    }
  }

  lemma {:induction false} HeldInsert(x: nat, s: seq<nat>, key: nat -> int, lots: seq<Lot>)
    ensures Held(Insert(x, s, key), lots) == Held([x], lots) + Held(s, lots)
  {
    if s != [] && key(x) > key(s[0]) {
      HeldInsert(x, s[1..], key, lots);
      assert ([s[0]] + Insert(x, s[1..], key))[1..] == Insert(x, s[1..], key);
    } else {
      assert ([x] + s)[1..] == s;
      assert [x][1..] == [];
    }
  }

  /** Sorting does not change how much stock the listed lots hold. */
  lemma {:induction false} HeldSortBy(s: seq<nat>, key: nat -> int, lots: seq<Lot>)
    ensures Held(SortBy(s, key), lots) == Held(s, lots)
  {
    if s != [] {
      HeldSortBy(s[1..], key, lots);
      HeldInsert(s[0], SortBy(s[1..], key), key, lots);
      assert [s[0]][1..] == [];
    }
  }

  /** Whatever column a query orders by, the rows hold the same stock. */
  lemma SameGroupStock(lots: seq<Lot>, products: map<nat, Product>, name: string, k1: OrderKey, k2: OrderKey)
    ensures WithinLots(FifoOrder(lots, products, name, k1), lots) && WithinLots(FifoOrder(lots, products, name, k2), lots)
    ensures Avail(Rows(FifoOrder(lots, products, name, k1), lots)) == Avail(Rows(FifoOrder(lots, products, name, k2), lots))
  {
    var g := GroupLots(lots, products, name, |lots|);
    FifoOrderSpec(lots, products, name, k1);
    FifoOrderSpec(lots, products, name, k2);
    HeldSortBy(g, LotKey(lots, k1), lots);
    HeldSortBy(g, LotKey(lots, k2), lots);
    HeldIsAvail(FifoOrder(lots, products, name, k1), lots);
    HeldIsAvail(FifoOrder(lots, products, name, k2), lots);
  }

  /** What a FIFO query returns: exactly the group's lots with stock, each
      once, ordered by the key with the lot id as tie-break. */
  lemma FifoOrderSpec(lots: seq<Lot>, products: map<nat, Product>, name: string, k: OrderKey)
    ensures var o := FifoOrder(lots, products, name, k);
      && (forall j: nat :: j in o <==> InGroup(lots, products, name, j))
      && WithinLots(o, lots)
      && (forall a :: 0 <= a < |o| ==> lots[o[a]].remaining > 0.0)
      && Distinct(o)
      && (forall a, b :: 0 <= a < b < |o| ==>
            KeyOf(lots[o[a]], k) < KeyOf(lots[o[b]], k)
            || (KeyOf(lots[o[a]], k) == KeyOf(lots[o[b]], k) && o[a] < o[b]))
  {
    FifoOrderMembers(lots, products, name, k);
    FifoOrderLex(lots, products, name, k);
  }

  lemma FifoOrderMembers(lots: seq<Lot>, products: map<nat, Product>, name: string, k: OrderKey)
    ensures var o := FifoOrder(lots, products, name, k);
      && (forall j: nat :: j in o <==> InGroup(lots, products, name, j))
      && WithinLots(o, lots)
      && (forall a :: 0 <= a < |o| ==> lots[o[a]].remaining > 0.0)
  {
    var g := GroupLots(lots, products, name, |lots|);
    var o := FifoOrder(lots, products, name, k);
    forall j: nat ensures j in o <==> j in g {
      assert j in o <==> j in multiset(o);
    }
    forall a | 0 <= a < |o| ensures o[a] < |lots| && lots[o[a]].remaining > 0.0 {
      assert o[a] in o;
    }
  }

  lemma FifoOrderLex(lots: seq<Lot>, products: map<nat, Product>, name: string, k: OrderKey)
    requires WithinLots(FifoOrder(lots, products, name, k), lots)
    ensures var o := FifoOrder(lots, products, name, k);
      && Distinct(o)
      && (forall a, b :: 0 <= a < b < |o| ==>
            KeyOf(lots[o[a]], k) < KeyOf(lots[o[b]], k)
            || (KeyOf(lots[o[a]], k) == KeyOf(lots[o[b]], k) && o[a] < o[b]))
  {
    var g := GroupLots(lots, products, name, |lots|);
    SortByLex(g, LotKey(lots, k));
  }

  lemma SaleOrderSpec(lots: seq<Lot>, products: map<nat, Product>, pid: nat)
    ensures var o := SaleOrder(lots, products, pid);
      && WithinLots(o, lots)
      && (forall a :: 0 <= a < |o| ==> lots[o[a]].remaining > 0.0)
      && Distinct(o)
      && (forall j: nat :: j in o <==> pid in products && InGroup(lots, products, products[pid].name, j))
      && (forall a, b :: 0 <= a < b < |o| ==> lots[o[a]].movementDate <= lots[o[b]].movementDate)
  {
    if pid in products {
      FifoOrderSpec(lots, products, products[pid].name, ByMovementDate);
    }
  }

  /** The lot ids a FIFO query returns are lots of the ledger. */
  lemma FifoOrderWithin(lots: seq<Lot>, products: map<nat, Product>, name: string, k: OrderKey)
    ensures WithinLots(FifoOrder(lots, products, name, k), lots)
  {
    FifoOrderSpec(lots, products, name, k);
  }

  lemma SaleOrderWithin(lots: seq<Lot>, products: map<nat, Product>, pid: nat)
    ensures WithinLots(SaleOrder(lots, products, pid), lots)
  {
    SaleOrderSpec(lots, products, pid);
  }

  /** The rows a query returns, as read before anything is written. */
  function Rows(order: seq<nat>, lots: seq<Lot>): seq<Lot>
    requires WithinLots(order, lots)
  {
    seq(|order|, k requires 0 <= k < |order| => lots[order[k]])
  }

  /** The min-walk: take min(still needed, lot remaining) from each row in
      order and stop as soon as nothing more is needed. */
  function Takes(rows: seq<Lot>, need: real): (t: seq<real>)
    ensures |t| <= |rows|
  {
    if rows == [] || need <= 0.0 then []
    else
      var use := Min(need, rows[0].remaining);
      [use] + Takes(rows[1..], need - use)
  }

  /** One step of the walk from row `i` while something is still needed. */
  lemma TakesStep(rows: seq<Lot>, i: nat, need: real, use: real, rest: real, t: seq<real>)
    requires i < |rows| && need > 0.0 && i <= |t| && Takes(rows[i..], need) == t[i..]
    requires use == Min(need, rows[i].remaining) && rest == need - use
    ensures i < |t| && t[i] == use
    ensures Takes(rows[i + 1..], rest) == t[i + 1..]
  {
    assert rows[i..][1..] == rows[i + 1..];
    assert t[i..][1..] == t[i + 1..];
  }

  /** The walk draws positive amounts within each lot's stock from a prefix of
      the order, drains every lot it draws from but the last, stops once the
      need is met, and draws min(need, available) in all. */
  lemma {:induction false} TakesShape(rows: seq<Lot>, need: real)
    requires forall k :: 0 <= k < |rows| ==> rows[k].remaining > 0.0
    ensures var t := Takes(rows, need);
      && (forall k :: 0 <= k < |t| ==> 0.0 < t[k] <= rows[k].remaining)
      && (forall k :: 0 <= k < |t| - 1 ==> t[k] == rows[k].remaining)
      && (need <= 0.0 ==> t == [])
      && (need >= 0.0 ==> Sum(t) == Min(need, Avail(rows)))
      && (|t| < |rows| && need >= 0.0 ==> Sum(t) == need)
  {
    if rows != [] && need > 0.0 {
      var use := Min(need, rows[0].remaining);
      var t := Takes(rows, need);
      TakesShape(rows[1..], need - use);
      assert t == [use] + Takes(rows[1..], need - use);
      assert t[1..] == Takes(rows[1..], need - use);
      assert Sum(t) == use + Sum(t[1..]);
    }
  }

  /** Each take is positive and within its lot's stock. */
  lemma TakesBounds(rows: seq<Lot>, need: real)
    requires forall k :: 0 <= k < |rows| ==> rows[k].remaining > 0.0
    ensures forall k :: 0 <= k < |Takes(rows, need)| ==> 0.0 < Takes(rows, need)[k] <= rows[k].remaining
  {
    TakesShape(rows, need);
  }

  /** Every row drawn from but the last is drained. */
  lemma TakesDrain(rows: seq<Lot>, need: real)
    requires forall k :: 0 <= k < |rows| ==> rows[k].remaining > 0.0
    ensures forall k :: 0 <= k < |Takes(rows, need)| - 1 ==> Takes(rows, need)[k] == rows[k].remaining
  {
    TakesShape(rows, need);
  }

  /** A need the rows can cover is met exactly. */
  lemma TakesMeet(rows: seq<Lot>, need: real)
    requires forall k :: 0 <= k < |rows| ==> rows[k].remaining > 0.0
    requires 0.0 <= need <= Avail(rows)
    ensures Sum(Takes(rows, need)) == need
  {
    TakesShape(rows, need);
  }

  /** The handlers' `totalStock` loop over the query result. */
  method TotalRemaining(rows: seq<Lot>) returns (total: real)
    ensures total == Avail(rows)
  {
    total := 0.0;
    var i := 0;
    while i < |rows|
      invariant 0 <= i <= |rows|
      invariant total == Avail(rows[..i])
    {
      AvailAppend(rows[..i], rows[i]);
      assert rows[..i + 1] == rows[..i] + [rows[i]];
      total := total + rows[i].remaining;
      i := i + 1;
    }
    assert rows[..i] == rows;
  }
}
