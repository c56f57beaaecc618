/** Selling a batch of a recipe: every ingredient is checked against the
    ledger as it stands, then each ingredient is allocated in turn, each
    allocation reading the ledger the previous ones left. */
module Recipes {
  import opened Models
  import opened Fifo
  import opened Allocation
  import opened Reversal

  /** What one batch quantity `q` of the recipe needs of an ingredient. */
  function Need(item: RecipeItem, q: real): real
  {
    item.quantity * q
  }

  /** The rows the allocator's query returns for product `pid`. */
  function SaleRows(b: Books, pid: nat): seq<Lot>
  {
    SaleOrderWithin(b.lots, b.products, pid);
    Rows(SaleOrder(b.lots, b.products, pid), b.lots)
  }

  /** The pre-check on one ingredient: short when the stock of its name
      group is below the need. The message names the ingredient's product;
      when that product row is missing there is no name to give. */
  function ItemCheck(b: Books, item: RecipeItem, q: real): Option<Error>
  {
    if Avail(SaleRows(b, item.product)) < Need(item, q) then
      if item.product in b.products then Some(IngredientShort(b.products[item.product].name))
      else Some(IngredientMissing)
    else None
  }

  /** The pre-check over all ingredients: the first failure, if any. */
  function FirstShort(b: Books, items: seq<RecipeItem>, q: real): Option<Error>
  {
    if items == [] then None
    else if ItemCheck(b, items[0], q).Some? then ItemCheck(b, items[0], q)
    else FirstShort(b, items[1..], q)
  }

  /** The pre-check passes exactly when every ingredient passes, and a
      failure is the verdict of the first ingredient that fails. */
  lemma FirstShortSpec(b: Books, items: seq<RecipeItem>, q: real)
    ensures FirstShort(b, items, q) == None <==> forall i :: 0 <= i < |items| ==> ItemCheck(b, items[i], q) == None
    ensures FirstShort(b, items, q) != None ==>
      exists i :: 0 <= i < |items| && FirstShort(b, items, q) == ItemCheck(b, items[i], q)
        && forall k :: 0 <= k < i ==> ItemCheck(b, items[k], q) == None
  {
    FirstShortPasses(b, items, q);
    if FirstShort(b, items, q) != None {
      var i := FirstShortAt(b, items, q);
    }
  }

  lemma {:induction false} FirstShortPasses(b: Books, items: seq<RecipeItem>, q: real)
    ensures FirstShort(b, items, q) == None <==> forall i :: 0 <= i < |items| ==> ItemCheck(b, items[i], q) == None
  {
    if items != [] {
      FirstShortPasses(b, items[1..], q);
      assert forall i :: 0 < i < |items| ==> items[i] == items[1..][i - 1];
    }
  }

  /** The index of the ingredient whose verdict a failing pre-check reports. */
  lemma {:induction false} FirstShortAt(b: Books, items: seq<RecipeItem>, q: real) returns (i: nat)
    requires FirstShort(b, items, q) != None
    ensures i < |items| && FirstShort(b, items, q) == ItemCheck(b, items[i], q)
    ensures forall k :: 0 <= k < i ==> ItemCheck(b, items[k], q) == None
  {
    if ItemCheck(b, items[0], q).Some? {
      i := 0;
    } else {
      var i' := FirstShortAt(b, items[1..], q);
      i := i' + 1;
      assert forall k :: 0 < k <= i ==> items[k] == items[1..][k - 1];
    }
  }

  /** Phase two: each ingredient allocated in turn for sale `sid`. Only lot
      balances and stock counters change, and every usage it records, after
      the ones already there, belongs to the sale. */
  function AllocateItems(b: Books, sid: nat, items: seq<RecipeItem>, q: real): (r: Books)
    ensures |r.lots| == |b.lots|
    ensures forall j :: 0 <= j < |b.lots| ==> r.lots[j] == b.lots[j].(remaining := r.lots[j].remaining)
    ensures r.products.Keys == b.products.Keys
    ensures forall p :: p in b.products ==> r.products[p].name == b.products[p].name
    ensures |r.usages| >= |b.usages| && r.usages[..|b.usages|] == b.usages
    ensures forall k :: |b.usages| <= k < |r.usages| ==> r.usages[k].sale == sid
    decreases |items|
  {
    if items == [] then b
    else
      var n := |items| - 1;
      var b' := AllocateItems(b, sid, items[..n], q);
      SaleOrderWithin(b'.lots, b'.products, items[n].product);
      var order := SaleOrder(b'.lots, b'.products, items[n].product);
      var r := Allocate(b', sid, order, Need(items[n], q));
      AllocateAppends(b', sid, order, Need(items[n], q));
      AppendsChain(b.usages, b'.usages, r.usages, sid);
      r
  }

  /** `us` is `base` followed by usages of sale `sid` only. */
  predicate AppendsFor(base: seq<Usage>, us: seq<Usage>, sid: nat)
  {
    |us| >= |base| && us[..|base|] == base && forall k :: |base| <= k < |us| ==> us[k].sale == sid
  }

  /** An allocation appends usages of its own sale only. */
  lemma AllocateAppends(b: Books, sid: nat, order: seq<nat>, need: real)
    requires WithinLots(order, b.lots)
    ensures AppendsFor(b.usages, Allocate(b, sid, order, need).usages, sid)
  {
    var r := Allocate(b, sid, order, need);
    var t := Takes(Rows(order, b.lots), need);
    forall k | |b.usages| <= k < |r.usages| ensures r.usages[k].sale == sid {
      assert r.usages[|b.usages| + (k - |b.usages|)] == Usage(sid, order[k - |b.usages|], t[k - |b.usages|]);
    }
  }

  lemma AppendsChain(a: seq<Usage>, m: seq<Usage>, z: seq<Usage>, sid: nat)
    requires AppendsFor(a, m, sid) && AppendsFor(m, z, sid)
    ensures AppendsFor(a, z, sid)
  {
    assert z[..|a|] == z[..|m|][..|a|];
    forall k | |a| <= k < |z| ensures z[k].sale == sid {
      if k < |m| {
        assert z[k] == z[..|m|][k];
      }
    }
  }

  /** The name of the display product a recipe sale is recorded under. */
  function DisplayName(recipe: Recipe): string
  {
    "Reçete: " + recipe.name
  }

  /** The ledger after a recipe sale `sid` of `q` batches: the sale row's
      display product `pid` is stored with no stock, then the ingredients are
      allocated. */
  function RecipeSale(b: Books, sid: nat, pid: nat, recipe: Recipe, q: real): Books
  {
    AllocateItems(b.(products := b.products[pid := Product(DisplayName(recipe), 0.0)]), sid, recipe.items, q)
  }

  /** Allocating the ingredients keeps the ledger consistent and every
      product's drift. */
  lemma {:induction false} AllocateItemsKeepsConsistent(b: Books, sales: set<nat>, sid: nat, items: seq<RecipeItem>, q: real)
    requires Consistent(b, sales) && sid in sales
    ensures Consistent(AllocateItems(b, sid, items, q), sales)
    ensures forall p :: p in b.products ==> Drift(AllocateItems(b, sid, items, q), p) == Drift(b, p)
    decreases |items|
  {
    if items != [] {
      var n := |items| - 1;
      var b' := AllocateItems(b, sid, items[..n], q);
      AllocateItemsKeepsConsistent(b, sales, sid, items[..n], q);
      SaleOrderSpec(b'.lots, b'.products, items[n].product);
      AllocateKeepsConsistent(b', sales, sid, SaleOrder(b'.lots, b'.products, items[n].product), Need(items[n], q));
    }
  }

  /** Allocating the ingredients is something deleting the sale undoes. */
  lemma {:induction false} AllocateItemsReversible(b: Books, sid: nat, items: seq<RecipeItem>, q: real)
    ensures Reversible(AllocateItems(b, sid, items, q), b, sid)
    decreases |items|
  {
    if items != [] {
      var n := |items| - 1;
      var b' := AllocateItems(b, sid, items[..n], q);
      AllocateItemsReversible(b, sid, items[..n], q);
      SaleOrderSpec(b'.lots, b'.products, items[n].product);
      var order := SaleOrder(b'.lots, b'.products, items[n].product);
      AllocateReversible(b', sid, order, Need(items[n], q));
      ReversibleTrans(Allocate(b', sid, order, Need(items[n], q)), b', b, sid);
    }
  }

  /** Deleting a recipe sale gives every ingredient lot and stock counter
      back, but the display product stored with the sale stays behind. */
  lemma RecipeSaleThenDelete(b: Books, sid: nat, pid: nat, recipe: Recipe, q: real)
    requires forall k :: 0 <= k < |b.usages| ==> b.usages[k].sale != sid
    requires pid !in b.products
    ensures Reverse(RecipeSale(b, sid, pid, recipe, q), sid)
         == b.(products := b.products[pid := Product(DisplayName(recipe), 0.0)])
  {
    var b1 := b.(products := b.products[pid := Product(DisplayName(recipe), 0.0)]);
    AllocateItemsReversible(b1, sid, recipe.items, q);
    ReverseReversible(RecipeSale(b, sid, pid, recipe, q), b1, sid);
    ReverseUnused(b1, sid);
  }

  /** Lot `j` belongs to a product named `name`, whatever its stock. */
  predicate OfName(b: Books, name: string, j: nat)
  {
    j < |b.lots| && b.lots[j].product in b.products && b.products[b.lots[j].product].name == name
  }

  /** Quantity the usages `us` drew from lots of the name group `name`, lot
      ownership read in ledger `b`. */
  function GroupUsed(us: seq<Usage>, b: Books, name: string): real
  {
    if us == [] then 0.0
    else (if OfName(b, name, us[0].lot) then us[0].used else 0.0) + GroupUsed(us[1..], b, name)
  }

  lemma {:induction false} GroupUsedConcat(x: seq<Usage>, y: seq<Usage>, b: Books, name: string)
    ensures GroupUsed(x + y, b, name) == GroupUsed(x, b, name) + GroupUsed(y, b, name)
  {
    if x == [] {
      assert x + y == y;
    } else {
      assert (x + y)[0] == x[0];
      assert (x + y)[1..] == x[1..] + y;
      GroupUsedConcat(x[1..], y, b, name);
    }
  }

  /** Usages all drawn from the group count fully; usages drawn elsewhere
      count for nothing. */
  lemma {:induction false} GroupUsedAll(us: seq<Usage>, b: Books, name: string)
    requires forall k :: 0 <= k < |us| ==> OfName(b, name, us[k].lot)
    ensures GroupUsed(us, b, name) == Drawn(us)
  {
    if us != [] {
      GroupUsedAll(us[1..], b, name);
    }
  }

  lemma {:induction false} GroupUsedNone(us: seq<Usage>, b: Books, name: string)
    requires forall k :: 0 <= k < |us| ==> !OfName(b, name, us[k].lot)
    ensures GroupUsed(us, b, name) == 0.0
  {
    if us != [] {
      GroupUsedNone(us[1..], b, name);
    }
  }

  lemma {:induction false} GroupLotsSame(l1: seq<Lot>, p1: map<nat, Product>, l2: seq<Lot>, p2: map<nat, Product>, name: string, n: nat)
    requires n <= |l1| && n <= |l2|
    requires forall j: nat :: j < n ==> (InGroup(l1, p1, name, j) <==> InGroup(l2, p2, name, j))
    ensures GroupLots(l1, p1, name, n) == GroupLots(l2, p2, name, n)
  {
    if n > 0 {
      GroupLotsSame(l1, p1, l2, p2, name, n - 1);
    }
  }

  /** Ledger `c` differs from `b` only in lot balances and usages, and
      still holds the lots of product `pid`'s name group as they were. */
  predicate KeepsGroup(b: Books, c: Books, pid: nat)
  {
    && pid in b.products
    && |c.lots| == |b.lots|
    && (forall j :: 0 <= j < |b.lots| ==> c.lots[j] == b.lots[j].(remaining := c.lots[j].remaining))
    && c.products.Keys == b.products.Keys
    && (forall p :: p in b.products ==> c.products[p].name == b.products[p].name)
    && (forall j :: 0 <= j < |b.lots| && OfName(b, b.products[pid].name, j) ==> c.lots[j] == b.lots[j])
  }

  /** Such a ledger gives the allocator the same order and rows for `pid`,
      and every lot in that order belongs to the group. */
  lemma SameSaleRows(b: Books, c: Books, pid: nat)
    requires KeepsGroup(b, c, pid)
    ensures SaleOrder(c.lots, c.products, pid) == SaleOrder(b.lots, b.products, pid)
    ensures SaleRows(c, pid) == SaleRows(b, pid)
    ensures WithinLots(SaleOrder(c.lots, c.products, pid), c.lots)
    ensures Distinct(SaleOrder(c.lots, c.products, pid))
    ensures forall k :: 0 <= k < |SaleOrder(c.lots, c.products, pid)| ==>
      OfName(b, b.products[pid].name, SaleOrder(c.lots, c.products, pid)[k])
      && c.lots[SaleOrder(c.lots, c.products, pid)[k]].remaining > 0.0
  {
    var name := b.products[pid].name;
    forall j: nat | j < |b.lots| ensures InGroup(c.lots, c.products, name, j) <==> InGroup(b.lots, b.products, name, j) {
      assert c.lots[j].product == b.lots[j].product;
      if OfName(b, name, j) {
        assert c.lots[j] == b.lots[j];
      }
    }
    GroupLotsSame(c.lots, c.products, b.lots, b.products, name, |b.lots|);
    var g := GroupLots(b.lots, b.products, name, |b.lots|);
    SortByAgree(g, LotKey(c.lots, ByMovementDate), LotKey(b.lots, ByMovementDate));
    var o := SaleOrder(b.lots, b.products, pid);
    SaleOrderSpec(b.lots, b.products, pid);
    forall k | 0 <= k < |o| ensures c.lots[o[k]] == b.lots[o[k]] && OfName(b, name, o[k]) {
      assert o[k] in o;
    }
  }

  /** Appending usages that all drew from group `name` adds what they drew
      to that group and nothing to any other. */
  lemma GroupAppend(us: seq<Usage>, taken: seq<Usage>, b: Books, name: string)
    requires forall k :: 0 <= k < |taken| ==> OfName(b, name, taken[k].lot)
    ensures GroupUsed(us + taken, b, name) == GroupUsed(us, b, name) + Drawn(taken)
    ensures forall other :: other != name ==> GroupUsed(us + taken, b, other) == GroupUsed(us, b, other)
  {
    forall other | other != name ensures GroupUsed(us + taken, b, other) == GroupUsed(us, b, other) {
      GroupUsedConcat(us, taken, b, other);
      GroupUsedNone(taken, b, other);
    }
    GroupUsedConcat(us, taken, b, name);
    GroupUsedAll(taken, b, name);
  }

  /** An allocation over lots that all belong to name group `name` (lot
      ownership read in `b`) adds what it draws to that group's usage and
      nothing to any other group's. */
  lemma GroupDraw(b: Books, c: Books, sid: nat, order: seq<nat>, need: real, name: string)
    requires WithinLots(order, c.lots) && Distinct(order)
    requires forall k :: 0 <= k < |order| ==> c.lots[order[k]].remaining > 0.0 && OfName(b, name, order[k])
    requires 0.0 <= need <= Avail(Rows(order, c.lots))
    ensures var r := Allocate(c, sid, order, need);
      && GroupUsed(r.usages, b, name) == GroupUsed(c.usages, b, name) + need
      && (forall other :: other != name ==> GroupUsed(r.usages, b, other) == GroupUsed(c.usages, b, other))
  {
    var r := Allocate(c, sid, order, need);
    AllocationTakes(c, sid, order, need);
    AllocationTotal(c, sid, order, need);
    var taken := r.usages[|c.usages|..];
    assert r.usages == c.usages + taken;
    GroupAppend(c.usages, taken, b, name);
  }

  /** One ingredient's allocation on such a ledger draws exactly its need
      from its name group and nothing from any other group. */
  lemma ItemUsed(b: Books, c: Books, sid: nat, pid: nat, need: real)
    requires KeepsGroup(b, c, pid)
    requires 0.0 <= need <= Avail(SaleRows(b, pid))
    ensures WithinLots(SaleOrder(c.lots, c.products, pid), c.lots)
    ensures var r := Allocate(c, sid, SaleOrder(c.lots, c.products, pid), need);
      && GroupUsed(r.usages, b, b.products[pid].name) == GroupUsed(c.usages, b, b.products[pid].name) + need
      && (forall other :: other != b.products[pid].name ==> GroupUsed(r.usages, b, other) == GroupUsed(c.usages, b, other))
  {
    SameSaleRows(b, c, pid);
    GroupDraw(b, c, sid, SaleOrder(c.lots, c.products, pid), need, b.products[pid].name);
  }

  /** One ingredient's allocation on such a ledger leaves every lot outside
      the ingredient's name group as it was. */
  lemma ItemFrame(b: Books, c: Books, sid: nat, pid: nat, need: real)
    requires KeepsGroup(b, c, pid)
    ensures WithinLots(SaleOrder(c.lots, c.products, pid), c.lots)
    ensures var r := Allocate(c, sid, SaleOrder(c.lots, c.products, pid), need);
      forall j :: 0 <= j < |b.lots| && !OfName(b, b.products[pid].name, j) ==> r.lots[j] == c.lots[j]
  {
    var name := b.products[pid].name;
    SameSaleRows(b, c, pid);
    var order := SaleOrder(c.lots, c.products, pid);
    var t := Takes(Rows(order, c.lots), need);
    var r := Allocate(c, sid, order, need);
    ApplyEffect(c, sid, order, t);
    forall j | 0 <= j < |b.lots| && !OfName(b, name, j) ensures r.lots[j] == c.lots[j] {
      assert j !in order[..|t|];
    }
  }

  /** What the recipe asks of name group `name` for `q` batches: the needs
      of the ingredients whose product carries that name. */
  function Demand(b: Books, items: seq<RecipeItem>, q: real, name: string): real
  {
    if items == [] then 0.0
    else
      var n := |items| - 1;
      Demand(b, items[..n], q, name) + (if OfItem(b, items[n], name) then Need(items[n], q) else 0.0)
  }

  /** The ingredient's product exists and carries the name `name`. */
  predicate OfItem(b: Books, item: RecipeItem, name: string)
  {
    item.product in b.products && b.products[item.product].name == name
  }

  /** Lot `j` belongs to none of the ingredients' name groups. */
  predicate Outside(b: Books, items: seq<RecipeItem>, j: nat)
  {
    forall i :: 0 <= i < |items| && items[i].product in b.products ==> !OfName(b, b.products[items[i].product].name, j)
  }

  /** Ingredients whose products exist and carry pairwise different names. */
  predicate SeparateGroups(b: Books, items: seq<RecipeItem>)
  {
    && (forall i :: 0 <= i < |items| ==> items[i].product in b.products)
    && (forall i, k :: 0 <= i < k < |items| ==> b.products[items[i].product].name != b.products[items[k].product].name)
  }

  /** When the ingredients belong to pairwise different name groups, each of
      which covers its need, the sale draws from every name group exactly
      the recipe's demand on it, and leaves every lot outside the
      ingredients' groups as it was. */
  lemma RecipeDraws(b: Books, sid: nat, items: seq<RecipeItem>, q: real)
    requires SeparateGroups(b, items)
    requires forall i :: 0 <= i < |items| ==> 0.0 <= Need(items[i], q) <= Avail(SaleRows(b, items[i].product))
    ensures var r := AllocateItems(b, sid, items, q);
      && (forall name :: GroupUsed(r.usages, b, name) == GroupUsed(b.usages, b, name) + Demand(b, items, q, name))
      && (forall j :: 0 <= j < |b.lots| && Outside(b, items, j) ==> r.lots[j] == b.lots[j])
  {
    RecipeUsed(b, sid, items, q);
    RecipeFrame(b, sid, items, q);
  }

  lemma {:induction false} RecipeUsed(b: Books, sid: nat, items: seq<RecipeItem>, q: real)
    requires SeparateGroups(b, items)
    requires forall i :: 0 <= i < |items| ==> 0.0 <= Need(items[i], q) <= Avail(SaleRows(b, items[i].product))
    ensures var r := AllocateItems(b, sid, items, q);
      forall name :: GroupUsed(r.usages, b, name) == GroupUsed(b.usages, b, name) + Demand(b, items, q, name)
    decreases |items|
  {
    if items != [] {
      var n := |items| - 1;
      var front := items[..n];
      assert forall i :: 0 <= i < n ==> front[i] == items[i];
      RecipeUsed(b, sid, front, q);
      RecipeFrame(b, sid, front, q);
      LastKept(b, sid, items, q);
      UsedStep(b, AllocateItems(b, sid, front, q), sid, items, q);
    }
  }

  /** The last ingredient adds its need to its own group's usage. */
  lemma UsedStep(b: Books, c: Books, sid: nat, items: seq<RecipeItem>, q: real)
    requires items != [] && KeepsGroup(b, c, items[|items| - 1].product)
    requires 0.0 <= Need(items[|items| - 1], q) <= Avail(SaleRows(b, items[|items| - 1].product))
    requires forall name :: GroupUsed(c.usages, b, name) == GroupUsed(b.usages, b, name) + Demand(b, items[..|items| - 1], q, name)
    ensures WithinLots(SaleOrder(c.lots, c.products, items[|items| - 1].product), c.lots)
    ensures var item := items[|items| - 1];
      var r := Allocate(c, sid, SaleOrder(c.lots, c.products, item.product), Need(item, q));
      forall name :: GroupUsed(r.usages, b, name) == GroupUsed(b.usages, b, name) + Demand(b, items, q, name)
  {
    var item := items[|items| - 1];
    ItemUsed(b, c, sid, item.product, Need(item, q));
    DemandLast(b, items, q);
  }

  lemma DemandLast(b: Books, items: seq<RecipeItem>, q: real)
    requires items != []
    ensures forall name ::
        Demand(b, items, q, name) == Demand(b, items[..|items| - 1], q, name) + (if OfItem(b, items[|items| - 1], name) then Need(items[|items| - 1], q) else 0.0)
  {
  }

  lemma {:induction false} RecipeFrame(b: Books, sid: nat, items: seq<RecipeItem>, q: real)
    requires SeparateGroups(b, items)
    ensures var r := AllocateItems(b, sid, items, q);
      forall j :: 0 <= j < |b.lots| && Outside(b, items, j) ==> r.lots[j] == b.lots[j]
    decreases |items|
  {
    if items != [] {
      var front := items[..|items| - 1];
      assert forall i :: 0 <= i < |front| ==> front[i] == items[i];
      RecipeFrame(b, sid, front, q);
      LastKept(b, sid, items, q);
      FrameStep(b, AllocateItems(b, sid, front, q), sid, items, q);
    }
  }

  /** The last ingredient's allocation leaves the lots outside every
      ingredient's group as the earlier ones left them. */
  lemma FrameStep(b: Books, c: Books, sid: nat, items: seq<RecipeItem>, q: real)
    requires items != [] && KeepsGroup(b, c, items[|items| - 1].product)
    requires forall j :: 0 <= j < |b.lots| && Outside(b, items[..|items| - 1], j) ==> c.lots[j] == b.lots[j]
    ensures WithinLots(SaleOrder(c.lots, c.products, items[|items| - 1].product), c.lots)
    ensures var item := items[|items| - 1];
      var r := Allocate(c, sid, SaleOrder(c.lots, c.products, item.product), Need(item, q));
      forall j :: 0 <= j < |b.lots| && Outside(b, items, j) ==> r.lots[j] == b.lots[j]
  {
    var item := items[|items| - 1];
    ItemFrame(b, c, sid, item.product, Need(item, q));
    forall j | 0 <= j < |b.lots| && Outside(b, items, j)
      ensures Outside(b, items[..|items| - 1], j) && !OfName(b, b.products[item.product].name, j)
    {
      assert items[|items| - 1] == item;
    }
  }


  /** The ingredients before the last leave the last one's name group as
      it was. */
  lemma LastKept(b: Books, sid: nat, items: seq<RecipeItem>, q: real)
    requires SeparateGroups(b, items) && items != []
    requires var c := AllocateItems(b, sid, items[..|items| - 1], q);
      forall j :: 0 <= j < |b.lots| && Outside(b, items[..|items| - 1], j) ==> c.lots[j] == b.lots[j]
    ensures KeepsGroup(b, AllocateItems(b, sid, items[..|items| - 1], q), items[|items| - 1].product)
  {
    var n := |items| - 1;
    var front := items[..n];
    var c := AllocateItems(b, sid, front, q);
    var name := b.products[items[n].product].name;
    forall j | 0 <= j < |b.lots| && OfName(b, name, j) ensures c.lots[j] == b.lots[j] {
      forall i | 0 <= i < n && front[i].product in b.products ensures !OfName(b, b.products[front[i].product].name, j) {
        assert front[i] == items[i];
      }
    }
  }

  /** With separate groups, the demand on an ingredient's group is that
      ingredient's need. */
  lemma {:induction false} DemandOfItem(b: Books, items: seq<RecipeItem>, q: real, i: nat)
    requires SeparateGroups(b, items) && i < |items|
    ensures Demand(b, items, q, b.products[items[i].product].name) == Need(items[i], q)
    decreases |items|
  {
    var n := |items| - 1;
    var front := items[..n];
    var name := b.products[items[i].product].name;
    assert forall k :: 0 <= k < n ==> front[k] == items[k];
    if i < n {
      DemandOfItem(b, front, q, i);
    } else {
      DemandNone(b, front, q, name);
    }
  }

  /** No ingredient carries `name`: nothing is asked of that group. */
  lemma {:induction false} DemandNone(b: Books, items: seq<RecipeItem>, q: real, name: string)
    requires forall i :: 0 <= i < |items| ==> !OfItem(b, items[i], name)
    ensures Demand(b, items, q, name) == 0.0
    decreases |items|
  {
    if items != [] {
      DemandNone(b, items[..|items| - 1], q, name);
    }
  }


  /** One lot of 8 of flour, nothing drawn yet. */
  function Pantry(): Books
  {
    Books([Lot(0, 8.0, 8.0, 2.0, 1, 1)], map[0 := Product("flour", 8.0)], [])
  }

  /** A recipe naming the same product twice, 5 each per batch. */
  function Dough(): seq<RecipeItem>
  {
    [RecipeItem(0, 5.0), RecipeItem(0, 5.0)]
  }

  /** A ledger holding a single lot with stock allocates from that lot. */
  lemma OneLotOrder(l: Lot, products: map<nat, Product>)
    requires l.product in products && l.remaining > 0.0
    ensures SaleOrder([l], products, l.product) == [0]
  {
    var one: seq<nat> := [0];
    var none: seq<nat> := [];
    var name := products[l.product].name;
    assert GroupLots([l], products, name, 0) == none;
    assert GroupLots([l], products, name, 1) == one;
    assert SortBy(one, LotKey([l], ByMovementDate)) == one by {
      assert one[1..] == none;
    }
  }

  /** A need drawn from a ledger of one lot is one debit of that lot. */
  lemma OneLotAllocate(b: Books, sid: nat, need: real)
    requires |b.lots| == 1 && need > 0.0
    ensures Allocate(b, sid, [0], need) == Debit(b, sid, 0, Min(need, b.lots[0].remaining))
  {
    var one: seq<nat> := [0];
    var t := [Min(need, b.lots[0].remaining)];
    assert Rows(one, b.lots) == b.lots;
    assert b.lots[1..] == [];
    assert Takes(b.lots, need) == t;
    assert t[..0] == [];
    assert Apply(b, sid, one, []) == b;
  }

  /** Allocating a list of ingredients is allocating all but the last, then
      the last. */
  lemma AllocateItemsLast(b: Books, sid: nat, items: seq<RecipeItem>, q: real)
    requires items != []
    ensures var c := AllocateItems(b, sid, items[..|items| - 1], q);
      var pid := items[|items| - 1].product;
      && WithinLots(SaleOrder(c.lots, c.products, pid), c.lots)
      && AllocateItems(b, sid, items, q) == Allocate(c, sid, SaleOrder(c.lots, c.products, pid), Need(items[|items| - 1], q))
  {
    var c := AllocateItems(b, sid, items[..|items| - 1], q);
    SaleOrderWithin(c.lots, c.products, items[|items| - 1].product);
  }

  /** Allocating the first i + 1 ingredients is allocating the first i,
      then ingredient i. */
  lemma AllocateItemsNext(b: Books, sid: nat, items: seq<RecipeItem>, i: nat, q: real)
    requires i < |items|
    ensures var c := AllocateItems(b, sid, items[..i], q);
      && WithinLots(SaleOrder(c.lots, c.products, items[i].product), c.lots)
      && AllocateItems(b, sid, items[..i + 1], q) == Allocate(c, sid, SaleOrder(c.lots, c.products, items[i].product), Need(items[i], q))
  {
    assert items[..i + 1][..i] == items[..i];
    AllocateItemsLast(b, sid, items[..i + 1], q);
  }

  lemma PantryFirstDebit()
    ensures AllocateItems(Pantry(), 0, Dough()[..1], 1.0) == Debit(Pantry(), 0, 0, 5.0)
  {
    var b := Pantry();
    var items := Dough()[..1];
    assert items == [RecipeItem(0, 5.0)] && items[..0] == [];
    AllocateItemsLast(b, 0, items, 1.0);
    OneLotOrder(b.lots[0], b.products);
    OneLotAllocate(b, 0, 5.0);
  }

  /** The first ingredient takes 5 of the 8. */
  lemma PantryFirst()
    ensures var c := AllocateItems(Pantry(), 0, Dough()[..1], 1.0);
      && |c.lots| == 1 && c.lots[0] == Lot(0, 8.0, 3.0, 2.0, 1, 1)
      && c.products == map[0 := Product("flour", 3.0)]
      && c.usages == [Usage(0, 0, 5.0)]
  {
    PantryFirstDebit();
    var b := Pantry();
    var d := Debit(b, 0, 0, 5.0);
    assert d.lots == [Lot(0, 8.0, 3.0, 2.0, 1, 1)];
    assert d.products == map[0 := Product("flour", 3.0)];
    assert d.usages == [Usage(0, 0, 5.0)];
  }

  lemma PantrySecondDebit()
    ensures var c := AllocateItems(Pantry(), 0, Dough()[..1], 1.0);
      |c.lots| == 1 && AllocateItems(Pantry(), 0, Dough(), 1.0) == Debit(c, 0, 0, Min(5.0, c.lots[0].remaining))
  {
    var b := Pantry();
    PantryFirst();
    var c := AllocateItems(b, 0, Dough()[..1], 1.0);
    AllocateItemsLast(b, 0, Dough(), 1.0);
    OneLotOrder(c.lots[0], c.products);
    OneLotAllocate(c, 0, 5.0);
  }

  /** The second ingredient takes the 3 left. */
  lemma PantrySecond()
    ensures var r := AllocateItems(Pantry(), 0, Dough(), 1.0);
      && |r.lots| == 1 && r.lots[0].remaining == 0.0
      && r.usages == [Usage(0, 0, 5.0), Usage(0, 0, 3.0)]
  {
    PantryFirst();
    PantrySecondDebit();
  }

  /** Both ingredients pass the pre-check: each asks 5 of the 8. */
  lemma PantryPasses()
    ensures FirstShort(Pantry(), Dough(), 1.0) == None
  {
    var b := Pantry();
    var one: seq<nat> := [0];
    OneLotOrder(b.lots[0], b.products);
    assert Rows(one, b.lots) == b.lots;
    assert Avail(b.lots) == 8.0;
    assert Dough()[1..] == [RecipeItem(0, 5.0)];
    assert [RecipeItem(0, 5.0)][1..] == [];
  }

  /** The recipe asks 10 of the flour group. */
  lemma PantryDemand()
    ensures Demand(Pantry(), Dough(), 1.0, "flour") == 10.0
  {
    assert Dough()[..1] == [RecipeItem(0, 5.0)];
    assert [RecipeItem(0, 5.0)][..0] == [];
  }

  lemma GroupUsedTwo(b: Books, name: string, u1: Usage, u2: Usage)
    requires OfName(b, name, u1.lot) && OfName(b, name, u2.lot)
    ensures GroupUsed([u1, u2], b, name) == u1.used + u2.used
  {
    assert [u2][1..] == [];
    assert GroupUsed([u2], b, name) == u2.used;
    assert [u1, u2][1..] == [u2];
  }

  /** Two ingredients of one name group are each checked against the whole
      group: both pass with 8 in stock, the sale then draws only the 8 there
      are, not the 10 the recipe asks for, and the lot ends empty. */
  lemma SharedGroupShortfall()
    ensures FirstShort(Pantry(), Dough(), 1.0) == None
    ensures Demand(Pantry(), Dough(), 1.0, "flour") == 10.0
    ensures GroupUsed(AllocateItems(Pantry(), 0, Dough(), 1.0).usages, Pantry(), "flour") == 8.0
    ensures AllocateItems(Pantry(), 0, Dough(), 1.0).lots[0].remaining == 0.0
  {
    PantryPasses();
    PantryDemand();
    PantrySecond();
    GroupUsedTwo(Pantry(), "flour", Usage(0, 0, 5.0), Usage(0, 0, 3.0));
  }

}
