/** The ledger's entities: lots (stock movements), products, stock usages and
    recipes, the sums the service keeps in step, and the invariants that
    relate them. */
module Models {

  datatype Option<T> = None | Some(value: T)

  /** The error conditions the handlers report. */
  datatype Error =
    | InvalidValues          // a sale whose fields fail the handler's checks
    | InvalidProduct         // a product whose fields fail the handler's checks
    | ProductNotFound
    | InsufficientStock
    | IngredientShort(name: string)
    | IngredientMissing      // an ingredient whose product row is gone
    | RecipeNotFound
    | SaleNotFound
    | NameRequired
    | InvalidQuantity        // a costing quantity that does not parse as a number

  datatype Result<T> = Ok(value: T) | Err(error: Error)

  /** A stock movement: one received batch. Dates are instants on a common
      integer clock; 0 is Go's zero time. */
  datatype Lot = Lot(product: nat, initial: real, remaining: real, unitCost: real,
                     movementDate: int, createdAt: int)

  datatype Product = Product(name: string, currentStock: real)

  /** A stock usage: sale `sale` drew `used` units from lot `lot`. */
  datatype Usage = Usage(sale: nat, lot: nat, used: real)

  datatype RecipeItem = RecipeItem(product: nat, quantity: real)

  datatype Recipe = Recipe(name: string, items: seq<RecipeItem>)

  /** The rows the core reads and writes: lots (a lot's id is its index),
      products by id, and stock usages in insertion order. */
  datatype Books = Books(lots: seq<Lot>, products: map<nat, Product>, usages: seq<Usage>)

  /** Go's math.Min on two non-NaN values. */
  function Min(a: real, b: real): real
  {
    if a <= b then a else b
  }

  function Sum(t: seq<real>): real
  {
    if t == [] then 0.0 else t[0] + Sum(t[1..])
  }

  /** Total remaining quantity of a sequence of lots. */
  function Avail(rows: seq<Lot>): (r: real)
    ensures (forall k :: 0 <= k < |rows| ==> rows[k].remaining >= 0.0) ==> r >= 0.0
  {
    if rows == [] then 0.0 else rows[0].remaining + Avail(rows[1..])
  }

  /** Total quantity the usages `us` drew from lot `j`. */
  function UsedOn(us: seq<Usage>, j: nat): real
  {
    if us == [] then 0.0
    else UsedOn(us[..|us| - 1], j) + (if us[|us| - 1].lot == j then us[|us| - 1].used else 0.0)
  }

  /** Total remaining quantity over the lots owned by product `p`. */
  function StockOf(lots: seq<Lot>, p: nat): real
  {
    if lots == [] then 0.0
    else StockOf(lots[..|lots| - 1], p) + (if lots[|lots| - 1].product == p then lots[|lots| - 1].remaining else 0.0)
  }

  /** Every lot belongs to a product row, and every usage names an existing
      lot and an existing sale and draws a positive quantity. */
  predicate Linked(b: Books, sales: set<nat>)
  {
    && (forall j :: 0 <= j < |b.lots| ==> b.lots[j].product in b.products)
    && (forall k :: 0 <= k < |b.usages| ==>
          b.usages[k].lot < |b.lots| && b.usages[k].sale in sales && b.usages[k].used > 0.0)
  }

  /** 0 <= remaining <= initial for every lot. */
  predicate Bounded(lots: seq<Lot>)
  {
    forall j :: 0 <= j < |lots| ==> 0.0 <= lots[j].remaining <= lots[j].initial
  }

  /** The quantity missing from a lot that its usages do not account for. */
  function Gap(b: Books, j: nat): real
    requires j < |b.lots|
  {
    b.lots[j].initial - b.lots[j].remaining - UsedOn(b.usages, j)
  }

  /** initial - remaining == the quantity its usages drew, for every lot. */
  predicate Conserved(b: Books)
  {
    forall j :: 0 <= j < |b.lots| ==> Gap(b, j) == 0.0
  }

  predicate Consistent(b: Books, sales: set<nat>)
  {
    Linked(b, sales) && Bounded(b.lots) && Conserved(b)
  }

  /** How far a product's stock counter is from the sum over its own lots. */
  function Drift(b: Books, p: nat): real
    requires p in b.products
  {
    b.products[p].currentStock - StockOf(b.lots, p)
  }

  /** Every product's current stock equals the remaining quantity of its lots. */
  predicate InSync(b: Books)
  {
    forall p :: p in b.products ==> Drift(b, p) == 0.0
  }

  predicate Distinct<T(==)>(s: seq<T>)
  {
    forall a, b :: 0 <= a < b < |s| ==> s[a] != s[b]
  }

  lemma {:induction false} SumAppend(s: seq<real>, x: real)
    ensures Sum(s + [x]) == Sum(s) + x
  {
    if s != [] {
      assert (s + [x])[1..] == s[1..] + [x];
      SumAppend(s[1..], x);
    }
  }

  lemma {:induction false} AvailAppend(s: seq<Lot>, x: Lot)
    ensures Avail(s + [x]) == Avail(s) + x.remaining
  {
    if s != [] {
      assert (s + [x])[1..] == s[1..] + [x];
      AvailAppend(s[1..], x);
    }
  }

  /** Appending a usage changes only the drawn total of the lot it names. */
  lemma UsedOnAppend(us: seq<Usage>, u: Usage, j: nat)
    ensures UsedOn(us + [u], j) == UsedOn(us, j) + (if u.lot == j then u.used else 0.0)
  {
    assert (us + [u])[..|us|] == us;
  }

  lemma {:induction false} UsedOnConcat(a: seq<Usage>, b: seq<Usage>, j: nat)
    ensures UsedOn(a + b, j) == UsedOn(a, j) + UsedOn(b, j)
  {
    if b == [] {
      assert a + b == a;
    } else {
      var b' := b[..|b| - 1];
      assert a + b == (a + b') + [b[|b| - 1]];
      assert b == b' + [b[|b| - 1]];
      UsedOnConcat(a, b', j);
      UsedOnAppend(a + b', b[|b| - 1], j);
      UsedOnAppend(b', b[|b| - 1], j);
    }
  }

  /** Setting one lot's remaining quantity moves its owner's stock total by
      the same amount and no other product's. */
  lemma {:induction false} StockOfUpdate(lots: seq<Lot>, j: nat, r: real, p: nat)
    requires j < |lots|
    ensures StockOf(lots[j := lots[j].(remaining := r)], p)
         == StockOf(lots, p) + (if lots[j].product == p then r - lots[j].remaining else 0.0)
  {
    var lots' := lots[j := lots[j].(remaining := r)];
    var n := |lots| - 1;
    assert lots'[..n] == if j < n then lots[..n][j := lots[j].(remaining := r)] else lots[..n];
    if j < n {
      StockOfUpdate(lots[..n], j, r, p);
    }
  }

  /** A product that owns no lot has no stock in them. */
  lemma {:induction false} StockOfNone(lots: seq<Lot>, p: nat)
    requires forall j :: 0 <= j < |lots| ==> lots[j].product != p
    ensures StockOf(lots, p) == 0.0
  {
    if lots != [] {
      StockOfNone(lots[..|lots| - 1], p);
    }
  }

  lemma StockOfAppend(lots: seq<Lot>, x: Lot, p: nat)
    ensures StockOf(lots + [x], p) == StockOf(lots, p) + (if x.product == p then x.remaining else 0.0)
  {
    assert (lots + [x])[..|lots|] == lots;
  }

  /** A distinct sequence holds each value at most once. */
  lemma {:induction false} DistinctCount<T>(s: seq<T>, x: T)
    requires Distinct(s)
    ensures multiset(s)[x] <= 1
  {
    if s != [] {
      assert s == [s[0]] + s[1..];
      assert s[0] !in s[1..];
      DistinctCount(s[1..], x);
    }
  }

  /** A rearrangement of a distinct sequence is distinct. */
  lemma DistinctPerm<T>(a: seq<T>, b: seq<T>)
    requires multiset(a) == multiset(b) && Distinct(a)
    ensures Distinct(b)
  {
    forall x, y | 0 <= x < y < |b| ensures b[x] != b[y] {
      if b[x] == b[y] {
        assert b == b[..y] + b[y..];
        assert b[x] in b[..y];
        assert b[y] in b[y..];
        assert multiset(b)[b[x]] == multiset(b[..y])[b[x]] + multiset(b[y..])[b[x]];
        DistinctCount(a, b[x]);
        assert false;
      }
    }
  }
}
