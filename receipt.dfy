/** Receiving stock: a new product row and the one lot it brings. */
module Receipt {
  import opened Models

  /** The fields of a product the receipt handler reads. Dates are instants
      on the ledger's clock; 0 is Go's zero time. */
  datatype ProductInput = ProductInput(
    companyName: string, category: string, productName: string, unit: string, invoiceNo: string,
    invoiceDate: int, initialStock: real, currentStock: real, unitPrice: real, vat: real, totalCost: real)

  /** The handler's field check: every text field non-empty, an invoice date
      set, and no numeric field negative (zero passes). */
  predicate ProductAccepted(p: ProductInput)
  {
    && p.companyName != "" && p.category != "" && p.productName != ""
    && p.unit != "" && p.invoiceNo != "" && p.invoiceDate != 0
    && p.initialStock >= 0.0 && p.currentStock >= 0.0 && p.unitPrice >= 0.0
    && p.vat >= 0.0 && p.totalCost >= 0.0
  }

  /** The lot a receipt records for product `id`: all of the initial stock
      still remaining, at the unit price, dated by the invoice and created
      at `now`. */
  function ReceiptLot(id: nat, p: ProductInput, now: int): Lot
  {
    Lot(id, p.initialStock, p.initialStock, p.unitPrice, p.invoiceDate, now)
  }

  /** The ledger after product `id` is received. */
  function Receive(b: Books, id: nat, p: ProductInput, now: int): Books
  {
    Books(b.lots + [ReceiptLot(id, p, now)], b.products[id := Product(p.productName, p.currentStock)], b.usages)
  }

  /** A lot nobody has drawn from has no usages. */
  lemma {:induction false} UsedOnUnused(us: seq<Usage>, j: nat)
    requires forall k :: 0 <= k < |us| ==> us[k].lot != j
    ensures UsedOn(us, j) == 0.0
  {
    if us != [] {
      UsedOnUnused(us[..|us| - 1], j);
    }
  }

  /** Receiving an accepted product under a fresh id keeps the ledger
      consistent, adds exactly one lot, owned by the new product, and leaves
      every earlier lot, product and usage as it was. */
  lemma ReceiveKeepsConsistent(b: Books, sales: set<nat>, id: nat, p: ProductInput, now: int)
    requires Consistent(b, sales) && id !in b.products && ProductAccepted(p)
    ensures var r := Receive(b, id, p, now);
      && Consistent(r, sales)
      && |r.lots| == |b.lots| + 1 && r.lots[..|b.lots|] == b.lots
      && r.lots[|b.lots|].product == id
      && r.lots[|b.lots|].initial == r.lots[|b.lots|].remaining == p.initialStock
      && (forall q :: q in b.products ==> r.products[q] == b.products[q])
      && r.usages == b.usages
  {
    var r := Receive(b, id, p, now);
    forall j | 0 <= j < |r.lots| ensures Gap(r, j) == 0.0 {
      if j == |b.lots| {
        UsedOnUnused(b.usages, j);
      } else {
        assert Gap(r, j) == Gap(b, j);
      }
    }
  }

  /** Receipt keeps every stock counter equal to the stock of its own lots
      exactly when the new product's current stock equals its initial
      stock. */
  lemma ReceiveSyncIff(b: Books, sales: set<nat>, id: nat, p: ProductInput, now: int)
    requires Consistent(b, sales) && InSync(b) && id !in b.products
    ensures InSync(Receive(b, id, p, now)) <==> p.currentStock == p.initialStock
  {
    var r := Receive(b, id, p, now);
    var lot := ReceiptLot(id, p, now);
    forall q | q in b.products ensures Drift(r, q) == Drift(b, q) {
      StockOfAppend(b.lots, lot, q);
    }
    StockOfAppend(b.lots, lot, id);
    StockOfNone(b.lots, id);
    assert Drift(r, id) == p.currentStock - p.initialStock;
  }
}
