/** The service's handlers over one ledger: receiving a product, selling a
    product, selling a batch of a recipe, deleting a sale and the costing
    query. Every handler first checks, then either changes the ledger or
    leaves it as it was and reports an error. */
module Inventory {
  import opened Models
  import opened Fifo
  import opened Allocation
  import opened Reversal
  import opened Costing
  import opened Receipt
  import opened Recipes

  /** The fields of a sale request the sale handler reads. */
  datatype SaleInput = SaleInput(product: nat, quantity: real, salePrice: real,
                                 customerName: string, customerPhone: string, unitCost: real)

  /** The sale handler's field check: a product id other than 0, a positive
      quantity, no negative price or unit cost, a customer name and phone. */
  predicate SaleAccepted(s: SaleInput)
  {
    s.product != 0 && s.quantity > 0.0 && s.salePrice >= 0.0
    && s.customerName != "" && s.customerPhone != "" && s.unitCost >= 0.0
  }

  /** The verdict of the sale handler's checks on ledger `b`, in the order
      it makes them: the fields, the product row, then the stock of the
      product's name group. */
  function SaleCheck(b: Books, s: SaleInput): Option<Error>
  {
    if !SaleAccepted(s) then Some(InvalidValues)
    else if s.product !in b.products then Some(ProductNotFound)
    else if Avail(SaleRows(b, s.product)) < s.quantity then Some(InsufficientStock)
    else None
  }

  /** The ledger after sale `sid` of `q` units of product `pid` is
      allocated. */
  function Sell(b: Books, sid: nat, pid: nat, q: real): Books
  {
    SaleOrderWithin(b.lots, b.products, pid);
    Allocate(b, sid, SaleOrder(b.lots, b.products, pid), q)
  }

  /** A sale keeps the ledger consistent, with its id added to the sales,
      keeps the product ids, and keeps every stock counter in step with its
      lots if it was. */
  lemma SellKeeps(b: Books, sales: set<nat>, sid: nat, pid: nat, q: real)
    requires Consistent(b, sales)
    ensures Consistent(Sell(b, sid, pid, q), sales + {sid})
    ensures Sell(b, sid, pid, q).products.Keys == b.products.Keys
    ensures InSync(b) ==> InSync(Sell(b, sid, pid, q))
    ensures WithinLots(SaleOrder(b.lots, b.products, pid), b.lots)
  {
    SaleOrderSpec(b.lots, b.products, pid);
    AllocateKeepsConsistent(b, sales + {sid}, sid, SaleOrder(b.lots, b.products, pid), q);
  }

  class Ledger {
    var lots: seq<Lot>
    var products: map<nat, Product>
    var usages: seq<Usage>
    var sales: set<nat>
    var recipes: map<nat, Recipe>
    var nextProduct: nat
    var nextSale: nat

    /** The rows the ledger keeps, as a value. */
    function State(): Books
      reads this
    {
      Books(lots, products, usages)
    }

    /** The ledger is consistent and the next ids are unused; ids start at 1
        as the database's do. */
    predicate Valid()
      reads this
    {
      && Consistent(State(), sales)
      && 1 <= nextProduct && (forall p :: p in products ==> p < nextProduct)
      && 1 <= nextSale && (forall s :: s in sales ==> s < nextSale)
    }

    /** An empty ledger holding the given recipes. */
    constructor (recipes: map<nat, Recipe>)
      ensures Valid() && InSync(State())
      ensures State() == Books([], map[], []) && sales == {} && this.recipes == recipes
    {
      lots := [];
      products := map[];
      usages := [];
      sales := {};
      this.recipes := recipes;
      nextProduct := 1;
      nextSale := 1;
    }

    /** One pass of the allocator's loop: record the usage, decrement the
        lot and decrement the stock of the product owning the lot. */
    method Take(sid: nat, j: nat, use: real)
      requires j < |lots|
      modifies this`lots, this`products, this`usages
      ensures State() == Debit(old(State()), sid, j, use)
    {
      var lot := lots[j];
      usages := usages + [Usage(sid, j, use)];
      lots := lots[j := lot.(remaining := lot.remaining - use)];
      if lot.product in products {
        var p := products[lot.product];
        products := products[lot.product := p.(currentStock := p.currentStock - use)];
      }
    }

    /** The allocator's walk for sale `sid` over the lots `order`, read
        before any write: take min(still needed, remaining) from each row
        until nothing more is needed, debiting the lot and its own product
        and recording a usage each time. */
    method Draw(sid: nat, order: seq<nat>, need: real)
      requires WithinLots(order, lots)
      modifies this`lots, this`products, this`usages
      ensures State() == Allocate(old(State()), sid, order, need)
    {
      ghost var b0 := State();
      var rows := Rows(order, lots);
      ghost var t := Takes(rows, need);
      var remaining := need;
      var i := 0;
      while i < |rows| && remaining > 0.0
        invariant 0 <= i <= |t|
        invariant Takes(rows[i..], remaining) == t[i..]
        invariant State() == Apply(b0, sid, order, t[..i])
        invariant |lots| == |b0.lots|
        decreases |rows| - i
      {
        var use := Min(remaining, rows[i].remaining);
        var left := remaining - use;
        TakesStep(rows, i, remaining, use, left, t);
        ApplyStep(b0, sid, order, t, i);
        Take(sid, order[i], use);
        remaining := left;
        i := i + 1;
      }
      assert t[..i] == t;
    }

    /** The sale handler's checks, made before anything is written: the
        fields, the product row, then the total remaining over the rows the
        allocator's query returns. */
    method CheckSale(s: SaleInput) returns (verdict: Option<Error>)
      ensures verdict == SaleCheck(State(), s)
    {
      if !SaleAccepted(s) {
        return Some(InvalidValues);
      }
      if s.product !in products {
        return Some(ProductNotFound);
      }
      SaleOrderWithin(lots, products, s.product);
      var total := TotalRemaining(Rows(SaleOrder(lots, products, s.product), lots));
      if total < s.quantity {
        return Some(InsufficientStock);
      }
      return None;
    }

    /** CreateSale: check, then record sale `nextSale` and allocate the
        quantity from the product's name group, oldest movement date first. */
    method CreateSale(s: SaleInput) returns (r: Result<nat>)
      requires Valid()
      modifies this`lots, this`products, this`usages, this`sales, this`nextSale
      ensures Valid()
      ensures SaleCheck(old(State()), s).Some? ==>
        r == Err(SaleCheck(old(State()), s).value) && State() == old(State()) && sales == old(sales) && nextSale == old(nextSale)
      ensures SaleCheck(old(State()), s).None? ==>
        && r == Ok(old(nextSale))
        && State() == Sell(old(State()), old(nextSale), s.product, s.quantity)
        && sales == old(sales) + {old(nextSale)} && nextSale == old(nextSale) + 1
      ensures old(InSync(State())) ==> InSync(State())
    {
      var verdict := CheckSale(s);
      if verdict.Some? {
        return Err(verdict.value);
      }
      r := RecordSale(s);
    }

    /** The part of CreateSale after its checks passed: the new sale id, then
        the allocation. */
    method RecordSale(s: SaleInput) returns (r: Result<nat>)
      requires Valid()
      modifies this`lots, this`products, this`usages, this`sales, this`nextSale
      ensures Valid()
      ensures r == Ok(old(nextSale))
      ensures State() == Sell(old(State()), old(nextSale), s.product, s.quantity)
      ensures sales == old(sales) + {old(nextSale)} && nextSale == old(nextSale) + 1
      ensures old(InSync(State())) ==> InSync(State())
    {
      ghost var b0 := State();
      SellKeeps(b0, sales, nextSale, s.product, s.quantity);
      var order := SaleOrder(lots, products, s.product);
      var sid := nextSale;
      sales := sales + {sid};
      nextSale := nextSale + 1;
      Draw(sid, order, s.quantity);
      r := Ok(sid);
    }

    /** The ingredient pre-check loop: each ingredient's need against the
        stock of its name group, on the ledger as it stands. */
    method CheckIngredients(items: seq<RecipeItem>, q: real) returns (r: Option<Error>)
      ensures r == FirstShort(State(), items, q)
    {
      var i := 0;
      while i < |items|
        invariant 0 <= i <= |items|
        invariant FirstShort(State(), items, q) == FirstShort(State(), items[i..], q)
      {
        assert items[i..][1..] == items[i + 1..];
        var item := items[i];
        SaleOrderWithin(lots, products, item.product);
        var total := TotalRemaining(Rows(SaleOrder(lots, products, item.product), lots));
        if total < Need(item, q) {
          if item.product in products {
            return Some(IngredientShort(products[item.product].name));
          }
          return Some(IngredientMissing);
        }
        i := i + 1;
      }
      return None;
    }

    /** CreateRecipeSale: check every ingredient, then store the display
        product `nextProduct` and sale `nextSale`, then allocate each
        ingredient's need in turn from the ledger the previous ones left. */
    method CreateRecipeSale(recipeId: nat, q: real) returns (r: Result<nat>)
      requires Valid()
      modifies this`lots, this`products, this`usages, this`sales, this`nextSale, this`nextProduct
      ensures Valid()
      ensures recipeId !in recipes ==>
        && r == Err(RecipeNotFound) && State() == old(State()) && sales == old(sales)
        && nextSale == old(nextSale) && nextProduct == old(nextProduct)
      ensures recipeId in recipes && FirstShort(old(State()), recipes[recipeId].items, q).Some? ==>
        && r == Err(FirstShort(old(State()), recipes[recipeId].items, q).value) && State() == old(State()) && sales == old(sales)
        && nextSale == old(nextSale) && nextProduct == old(nextProduct)
      ensures recipeId in recipes && FirstShort(old(State()), recipes[recipeId].items, q).None? ==>
        && r == Ok(old(nextSale))
        && State() == RecipeSale(old(State()), old(nextSale), old(nextProduct), recipes[recipeId], q)
        && sales == old(sales) + {old(nextSale)} && nextSale == old(nextSale) + 1 && nextProduct == old(nextProduct) + 1
      ensures old(InSync(State())) ==> InSync(State())
    {
      if recipeId !in recipes {
        return Err(RecipeNotFound);
      }
      var recipe := recipes[recipeId];
      var short := CheckIngredients(recipe.items, q);
      if short.Some? {
        return Err(short.value);
      }
      r := RecordRecipeSale(recipe, q);
    }

    /** The part of CreateRecipeSale after its checks passed: the sale row
        with its display product, then each ingredient's allocation. */
    method RecordRecipeSale(recipe: Recipe, q: real) returns (r: Result<nat>)
      requires Valid()
      modifies this`lots, this`products, this`usages, this`sales, this`nextSale, this`nextProduct
      ensures Valid()
      ensures r == Ok(old(nextSale))
      ensures State() == RecipeSale(old(State()), old(nextSale), old(nextProduct), recipe, q)
      ensures sales == old(sales) + {old(nextSale)} && nextSale == old(nextSale) + 1 && nextProduct == old(nextProduct) + 1
      ensures old(InSync(State())) ==> InSync(State())
    {
      RecipeSaleKeeps(State(), sales, nextSale, nextProduct, recipe, q);
      var pid := nextProduct;
      products := products[pid := Product(DisplayName(recipe), 0.0)];
      nextProduct := nextProduct + 1;
      var sid := nextSale;
      sales := sales + {sid};
      nextSale := nextSale + 1;
      DrawItems(sid, recipe.items, q);
      r := Ok(sid);
    }

    /** Phase two of a recipe sale: each ingredient's need allocated in turn,
        each from the rows its own query returns. */
    method DrawItems(sid: nat, items: seq<RecipeItem>, q: real)
      modifies this`lots, this`products, this`usages
      ensures State() == AllocateItems(old(State()), sid, items, q)
    {
      ghost var b1 := State();
      var i := 0;
      while i < |items|
        invariant 0 <= i <= |items|
        invariant State() == AllocateItems(b1, sid, items[..i], q)
      {
        var item := items[i];
        AllocateItemsNext(b1, sid, items, i, q);
        Draw(sid, SaleOrder(lots, products, item.product), Need(item, q));
        i := i + 1;
      }
      assert items[..i] == items;
    }

    /** DeleteSale: give each of the sale's usages back to its lot and to the
        product owning the lot, newest movement date first, then remove the
        sale's usages and the sale. */
    method DeleteSale(sid: nat) returns (r: Result<()>)
      requires Valid()
      modifies this`lots, this`products, this`usages, this`sales
      ensures Valid()
      ensures sid !in old(sales) ==> r == Err(SaleNotFound) && State() == old(State()) && sales == old(sales)
      ensures sid in old(sales) ==> r == Ok(()) && State() == Reverse(old(State()), sid) && sales == old(sales) - {sid}
      ensures old(InSync(State())) ==> InSync(State())
    {
      if sid !in sales {
        return Err(SaleNotFound);
      }
      ReverseKeeps(State(), sales, sid);
      RemoveSale(sid);
      r := Ok(());
    }

    /** The part of DeleteSale after the sale was found. */
    method RemoveSale(sid: nat)
      modifies this`lots, this`products, this`usages, this`sales
      ensures State() == Reverse(old(State()), sid) && sales == old(sales) - {sid}
    {
      ReversalOnLots(State(), sid);
      var order := ReversalOrder(State(), sid);
      CreditBack(order);
      usages := Without(usages, sid);
      sales := sales - {sid};
    }

    /** The reversal loop over the usages `us`. */
    method CreditBack(us: seq<Usage>)
      requires OnLots(us, lots)
      modifies this`lots, this`products
      ensures State() == CreditAll(old(State()), us)
    {
      ghost var b0 := State();
      var i := 0;
      while i < |us|
        invariant 0 <= i <= |us|
        invariant OnLots(us[..i], b0.lots)
        invariant State() == CreditAll(b0, us[..i])
      {
        assert us[..i + 1][..i] == us[..i];
        assert us[..i + 1][i] == us[i];
        Restore(us[i]);
        i := i + 1;
      }
      assert us[..i] == us;
    }

    /** One pass of the reversal loop: give the usage's quantity back to its
        lot and to the product owning the lot. */
    method Restore(u: Usage)
      requires u.lot < |lots|
      modifies this`lots, this`products
      ensures State() == Credit(old(State()), u)
    {
      var lot := lots[u.lot];
      lots := lots[u.lot := lot.(remaining := lot.remaining + u.used)];
      if lot.product in products {
        var p := products[lot.product];
        products := products[lot.product := p.(currentStock := p.currentStock + u.used)];
      }
    }

    /** CreateProduct: check the fields, then store product `nextProduct`
        and its one lot. */
    method CreateProduct(p: ProductInput, now: int) returns (r: Result<nat>)
      requires Valid()
      modifies this`lots, this`products, this`nextProduct
      ensures Valid()
      ensures !ProductAccepted(p) ==> r == Err(InvalidProduct) && State() == old(State()) && nextProduct == old(nextProduct)
      ensures ProductAccepted(p) ==>
        r == Ok(old(nextProduct)) && State() == Receive(old(State()), old(nextProduct), p, now)
        && nextProduct == old(nextProduct) + 1
      ensures old(InSync(State())) ==> (InSync(State()) <==> !ProductAccepted(p) || p.currentStock == p.initialStock)
    {
      if !ProductAccepted(p) {
        return Err(InvalidProduct);
      }
      var id := nextProduct;
      ReceiveKeepsConsistent(State(), sales, id, p, now);
      if InSync(State()) {
        ReceiveSyncIff(State(), sales, id, p, now);
      }
      products := products[id := Product(p.productName, p.currentStock)];
      lots := lots + [ReceiptLot(id, p, now)];
      nextProduct := nextProduct + 1;
      r := Ok(id);
    }

    /** GetAveragePrice: a query that writes nothing. */
    method GetAveragePrice(name: string, quantity: Option<real>) returns (r: Result<Figures>)
      ensures r == AveragePrice(State(), name, quantity)
    {
      if name == "" {
        return Err(NameRequired);
      }
      if quantity.None? {
        return Err(InvalidQuantity);
      }
      FifoOrderWithin(lots, products, name, ByCreatedAt);
      r := Evaluate(Rows(CostingOrder(lots, products, name), lots), quantity.value);
    }
  }

  /** Storing a recipe sale's display product under a fresh id, with no
      stock, keeps the ledger consistent and every other product's drift,
      and the new product's drift is zero. */
  lemma DisplayProductKeeps(b: Books, sales: set<nat>, sid: nat, pid: nat, name: string)
    requires Consistent(b, sales) && pid !in b.products
    ensures var b1 := b.(products := b.products[pid := Product(name, 0.0)]);
      && Consistent(b1, sales + {sid})
      && (forall p :: p in b.products ==> Drift(b1, p) == Drift(b, p))
      && Drift(b1, pid) == 0.0
  {
    var b1 := b.(products := b.products[pid := Product(name, 0.0)]);
    assert forall j :: 0 <= j < |b.lots| ==> Gap(b1, j) == Gap(b, j);
    assert forall j :: 0 <= j < |b.lots| ==> b.lots[j].product != pid;
    StockOfNone(b.lots, pid);
  }

  /** A recipe sale under a fresh display product id keeps the ledger
      consistent, with its id added to the sales, adds exactly the display
      product's id, and keeps every stock counter in step with its lots if
      it was. */
  lemma RecipeSaleKeeps(b: Books, sales: set<nat>, sid: nat, pid: nat, recipe: Recipe, q: real)
    requires Consistent(b, sales) && pid !in b.products
    ensures var r := RecipeSale(b, sid, pid, recipe, q);
      && Consistent(r, sales + {sid})
      && r.products.Keys == b.products.Keys + {pid}
      && (InSync(b) ==> InSync(r))
  {
    var name := DisplayName(recipe);
    var b1 := b.(products := b.products[pid := Product(name, 0.0)]);
    DisplayProductKeeps(b, sales, sid, pid, name);
    AllocateItemsKeepsConsistent(b1, sales + {sid}, sid, recipe.items, q);
  }

  /** The costing query reports insufficient stock for `q` units of a
      product's name exactly when a sale of `q` units of that product would
      be refused for stock, although the two walk the group in different
      orders. */
  lemma CostingPredictsSale(b: Books, pid: nat, q: real)
    requires pid in b.products && b.products[pid].name != ""
    ensures AveragePrice(b, b.products[pid].name, Some(q)) == Err(InsufficientStock)
        <==> Avail(SaleRows(b, pid)) < q
    ensures AveragePrice(b, b.products[pid].name, Some(q)).Ok?
        <==> Avail(SaleRows(b, pid)) >= q
  {
    SameGroupStock(b.lots, b.products, b.products[pid].name, ByCreatedAt, ByMovementDate);
  }

  /** Deleting a sale keeps the ledger consistent, with the sale gone from
      the sales, keeps the product ids, and keeps every stock counter in
      step with its lots if it was. */
  lemma ReverseKeeps(b: Books, sales: set<nat>, sid: nat)
    requires Consistent(b, sales)
    ensures Consistent(Reverse(b, sid), sales - {sid})
    ensures Reverse(b, sid).products.Keys == b.products.Keys
    ensures InSync(b) ==> InSync(Reverse(b, sid))
  {
    ReverseKeepsConsistent(b, sales, sid);
    ReverseBalances(b, sid);
  }

  /** The reversal only visits usages of lots that exist. */
  lemma ReversalOnLots(b: Books, sid: nat)
    ensures OnLots(ReversalOrder(b, sid), b.lots)
  {
    ReversalOrderSpec(b, sid);
  }

}
