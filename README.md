# stokApp FIFO lot ledger in Dafny

stokApp is a stock-keeping service for a small food business. Products are received in lots ("stock movements"). Each lot has an initial and a remaining quantity, a unit cost and an invoice (movement) date. A sale draws its quantity from the lots of every product that carries the sold product's *name*, in FIFO order. Each draw decrements the lot and the stock counter of the product that owns the lot, and records a stock usage. Deleting a sale gives every usage back, newest movement date first. A recipe sale checks each ingredient against the ledger as it stands and then draws every ingredient in turn. A costing query reports, for a product name:

- the weighted average cost;
- the stock and its value;
- the cost of the next unit;
- the FIFO cost per unit of a requested quantity.

The sale record derives its net price, VAT amount and total price whenever it is loaded or created.

The model has these parts:

- `Models`: the rows (`Lot`, `Product`, `Usage`, `Recipe`), the ledger value `Books` and the invariants.
  - `Consistent`: every lot is owned by a product. Every usage names an existing lot and sale and draws a positive amount. Every lot satisfies 0 ≤ remaining ≤ initial. For every lot, initial − remaining equals what its usages drew.
  - `InSync`: every product's stock counter equals the stock of its own lots.
- `Fifo`: the lot queries as a stable sort over the name group, and the min-walk `Takes`.
- `Allocation`: the allocator loop as a value function, `Allocate`.
- `Reversal`: the delete-sale loop, `Reverse`.
- `Recipes`: the ingredient pre-check and phase two of a recipe sale.
- `Costing`: the costing walk, `Quote` and `AveragePrice`.
- `Receipt`: the product receipt, `Receive`.
- `Pricing`: the sale record's price derivation, as a class with its hooks.
- `Inventory`: the handlers as methods of the class `Ledger`. Each handler checks first, then either changes the ledger or leaves it exactly as it was and returns an error. Each method's contract ties its new state to the value functions above. The lemmas about those functions carry the properties.

Quirks of the code that the model keeps:

- **Lot order.** The costing query orders lots by `created_at` (internal/api/handlers/product.go:125-132). The sale queries order them by `movement_date` (internal/api/handlers/sale.go:62-73 and 426-440). Neither query breaks ties; the model breaks them by lot id.
- **Next unit cost.** The costing loop sets the next unit cost only while it is still 0 (internal/api/handlers/product.go:167-170). A lot whose unit cost is 0 therefore never becomes the next cost, and a later lot's cost is taken instead.
- **Receiving a product.** `CreateProduct` stores the product's current stock exactly as given. The first lot is built from the initial stock (internal/api/handlers/product.go:52-58), so the stock counter and the lots may disagree from the start.
- **Zero quantity.** The sale check rejects any quantity `<= 0` (internal/api/handlers/sale.go:44-49). A sale of quantity 0 is refused, not treated as a no-op.
- **Recipe pre-check.** The pre-check compares each ingredient on its own against the whole stock of its name group (internal/api/handlers/sale.go:262-306). Phase two (internal/api/handlers/sale.go:331-399) does not check again. When several ingredients share a group, a sale can therefore commit while drawing less than the recipe asks for (`Recipes.SharedGroupShortfall`).
- **Validation message.** The product handler's error text says the numeric fields must be greater than zero, but its check only rejects negative values (internal/api/handlers/product.go:31-37). A value of zero passes.

## Model

| member | source | states |
|---|---|---|
| Fifo.SortBy | internal/api/handlers/sale.go:72 | the ORDER BY result is a permutation of the rows it sorts |
| Fifo.SortBySorted | internal/api/handlers/sale.go:72 | the ORDER BY result is sorted by its key |
| Fifo.GroupLots | internal/api/handlers/sale.go:66-71 | the candidate lots are exactly those with stock whose product carries the group's name, in id order |
| Fifo.FifoOrderSpec | internal/api/handlers/sale.go:62-73 | a lot query returns each lot of the name group with stock exactly once, ordered by its key with the lot id breaking ties |
| Fifo.SaleOrderSpec | internal/api/handlers/sale.go:62-73 | the sale query returns exactly the lots with stock of every product sharing the sold product's name, oldest movement date first, each once |
| Fifo.SameGroupStock | internal/api/handlers/product.go:125-132 | the costing query and the sale query see the same total stock of a name group, whatever column they order by |
| Fifo.SaleOrder | internal/api/handlers/sale.go:62-73 | the lot ids the sale query returns for a product: the lots with stock of every product sharing its name, oldest movement date first, and none for an unknown product (properties in `Fifo.SaleOrderSpec`) |
| Fifo.CostingOrder | internal/api/handlers/product.go:125-132 | the lot ids the costing query returns for a product name: the group's lots with stock, oldest creation first (properties in `Fifo.FifoOrderSpec`, `Fifo.SameGroupStock`) |
| Fifo.Takes | internal/api/handlers/sale.go:133-184 | the amounts the allocator's min-walk takes from each row in turn, min(need left, lot stock), stopping when the need is met; it never takes from more rows than it is given (properties in `Fifo.TakesShape`, `Fifo.TakesMeet`) |
| Fifo.TakesShape | internal/api/handlers/sale.go:133-184 | the min-walk takes a positive amount within each lot's stock from a prefix of the rows, drains every lot it draws from but the last, takes nothing for a need ≤ 0, and takes min(need, stock) in all |
| Fifo.TakesMeet | internal/api/handlers/sale.go:98-184 | a need the checked stock covers is drawn exactly |
| Fifo.TotalRemaining | internal/api/handlers/sale.go:88-94 | the stock-check loop sums the remaining quantity of the rows |
| Allocation.Debit | internal/api/handlers/sale.go:141-181 | one allocator pass on the ledger: the lot loses the amount, the product owning it loses it from its stock counter, and a usage naming the sale, the lot and the amount is appended (properties in `Allocation.Apply`) |
| Allocation.Allocate | internal/api/handlers/sale.go:132-184 | the ledger a sale of `need` leaves: `Allocation.Debit` for every take of the min-walk over the lots in the given order (properties in `Allocation.AllocationShape`, `Allocation.AllocateKeepsConsistent`) |
| Allocation.Apply | internal/api/handlers/sale.go:136-184 | applying the takes appends one usage per take naming the sale, the lot and the amount, and changes only remaining quantities and stock counters |
| Allocation.AllocateKeepsConsistent | internal/api/handlers/sale.go:132-184 | a sale's allocation keeps the ledger consistent and keeps every product's stock counter as far from its lots' stock as before |
| Allocation.AllocationShape | internal/api/handlers/sale.go:132-184 | the sale's usages draw from a prefix of the FIFO order, each within the lot's stock, lower each lot by the amount drawn, empty every lot but the last, and total the quantity when it is covered (the group's stock otherwise) |
| Reversal.SaleUsages | internal/api/handlers/sale.go:426-440 | the delete query returns exactly the sale's usages whose lot exists |
| Reversal.Without | internal/api/handlers/sale.go:471-476 | deleting the sale's usages keeps exactly the other sales' usages |
| Reversal.ReversalOrder | internal/api/handlers/sale.go:426-440 | the sale's usages on existing lots, sorted newest movement date first (properties in `Reversal.ReversalOrderSpec`) |
| Reversal.Credit | internal/api/handlers/sale.go:444-468 | one reversal pass: the usage's lot gets the amount back and so does the stock counter of the product owning it (properties in `Reversal.CreditAll`, `Reversal.CreditAllEffect`) |
| Reversal.Reverse | internal/api/handlers/sale.go:426-483 | the ledger a deletion leaves: every usage in reversal order credited back, then the sale's usages removed (properties in `Reversal.ReverseLots`, `Reversal.ReverseBalances`, `Reversal.ReverseKeepsConsistent`) |
| Reversal.ReversalOrderSpec | internal/api/handlers/sale.go:426-440 | the reversal visits exactly the sale's usages on existing lots, newest movement date first |
| Reversal.CreditAll | internal/api/handlers/sale.go:442-469 | crediting usages back changes only remaining quantities and stock counters |
| Reversal.CreditAllEffect | internal/api/handlers/sale.go:442-469 | crediting raises each lot by exactly what the credited usages drew from it and keeps every product's drift |
| Reversal.ReverseLots | internal/api/handlers/sale.go:442-476 | deleting a sale gives each lot back exactly what the sale drew from it |
| Reversal.ReverseBalances | internal/api/handlers/sale.go:442-476 | deleting a sale keeps every lot's accounting gap and every product's drift |
| Reversal.ReverseKeepsConsistent | internal/api/handlers/sale.go:412-488 | deleting a sale keeps the ledger consistent, with the sale removed from the sales on record |
| Reversal.ReverseUnused | internal/api/handlers/sale.go:426-476 | deleting a sale without usages changes nothing |
| Reversal.AllocateThenReverse | internal/api/handlers/sale.go:412-488 | deleting a sale right after allocating it restores every lot, stock counter and usage exactly |
| Recipes.ItemCheck | internal/api/handlers/sale.go:264-305 | one ingredient's pre-check: when its name group's stock is below the ingredient's quantity × the sale's quantity, an ingredient-short error carrying the product's name, or an ingredient-missing error for an unknown product; nothing otherwise |
| Recipes.FirstShort | internal/api/handlers/sale.go:262-306 | the pre-check over the ingredients in order: the first failing verdict, or none (properties in `Recipes.FirstShortSpec`) |
| Recipes.RecipeSale | internal/api/handlers/sale.go:308-399 | the ledger a recipe sale leaves: the display product stored with no stock, then phase two for every ingredient (properties in `Recipes.RecipeDraws`, `Recipes.RecipeSaleThenDelete`, `Inventory.RecipeSaleKeeps`) |
| Recipes.FirstShortSpec | internal/api/handlers/sale.go:262-306 | the pre-check passes iff every ingredient's name group covers its need; a failure is the verdict of the first ingredient that fails |
| Recipes.AllocateItems | internal/api/handlers/sale.go:331-399 | phase two for sale `sid` keeps every lot except its remaining quantity, keeps every product and its name, keeps the usages already recorded as a prefix, and every usage it appends belongs to sale `sid` |
| Recipes.AllocateItemsKeepsConsistent | internal/api/handlers/sale.go:331-399 | phase two keeps the ledger consistent and every product's drift |
| Recipes.RecipeDraws | internal/api/handlers/sale.go:331-399 | with ingredients of different name groups that each cover their need, the sale draws from every group exactly the recipe's demand on it and leaves every other lot as it was |
| Recipes.RecipeSaleThenDelete | internal/api/handlers/sale.go:308-399 | deleting a recipe sale restores every lot, stock counter and usage, and leaves only the display product behind |
| Recipes.SharedGroupShortfall | internal/api/handlers/sale.go:262-399 | two ingredients of one name group asking 5 each from 8 units both pass the pre-check, the sale draws only 8 of the 10 asked, and the lot ends empty |
| Costing.NextCost | internal/api/handlers/product.go:167-170 | the next FIFO unit cost: that of the first row with stock and a non-zero cost, 0 when there is none (properties in `Costing.NextCostSpec`) |
| Costing.FifoValue | internal/api/handlers/product.go:172-179 | the price of a quantity walked off the rows oldest first, each part at its lot's unit cost (properties in `Costing.FifoCostBounds`, `Costing.AllocationCost`) |
| Costing.Quote | internal/api/handlers/product.go:153-201 | the figures for a quantity over the group's rows: insufficient stock when the quantity exceeds the rows' stock, otherwise average cost (0 without stock), stock, value, next cost and FIFO cost per unit (0 unless the quantity is positive) (properties in `Costing.Evaluate`, `Costing.WholeStockAtAverage`) |
| Costing.AveragePrice | internal/api/handlers/product.go:101-201 | the costing handler: name required, quantity must parse, then the quote over the name group's lots in creation order (properties in `Inventory.CostingPredictsSale`, `Costing.SevenOfTen`) |
| Costing.Evaluate | internal/api/handlers/product.go:153-201 | the handler's single pass computes the quote: the insufficient-stock error, average, stock, value, next cost and FIFO cost |
| Costing.NextCostSpec | internal/api/handlers/product.go:167-170 | the next FIFO cost is the unit cost of the first row with stock and a non-zero cost, and 0 iff there is none |
| Costing.WholeStockAtAverage | internal/api/handlers/product.go:190-201 | quoting the whole stock succeeds and prices it per unit exactly at the average cost |
| Costing.FifoCostBounds | internal/api/handlers/product.go:172-201 | with unit costs between lo and hi, the FIFO cost of any covered quantity lies between lo and hi |
| Costing.AllocationCost | internal/api/handlers/product.go:172-179 | what the allocator draws for a quantity, priced at its lots' unit costs, equals the costing walk's FIFO value over the same order |
| Costing.CostingMatchesSale | internal/api/handlers/product.go:125-132 | when creation order and movement-date order agree on a group, the costing query walks the sale query's lots in the same order |
| Costing.CostingDiverges | internal/api/handlers/product.go:131 | a lot created later with an earlier invoice date is priced second by the costing query but drawn first by a sale |
| Costing.SevenOfTen | internal/api/handlers/product.go:153-201 | seven units from lots of 5 at 10 and 5 at 20 cost 90 in all, average 15, next cost 10 |
| Receipt.ProductAccepted | internal/api/handlers/product.go:31-37 | the product handler's check: every text field and the invoice date present, no numeric field negative |
| Receipt.ReceiptLot | internal/api/handlers/product.go:52-58 | the first lot of a new product: initial and remaining quantity the initial stock, unit cost the unit price, movement date the invoice date |
| Receipt.Receive | internal/api/handlers/product.go:43-67 | the ledger a receipt leaves: the product stored with its current stock as given and its first lot appended (properties in `Receipt.ReceiveKeepsConsistent`, `Receipt.ReceiveSyncIff`) |
| Receipt.ReceiveKeepsConsistent | internal/api/handlers/product.go:43-67 | receiving a product under a fresh id keeps the ledger consistent and adds one full lot owned by it, leaving every other row as it was |
| Receipt.ReceiveSyncIff | internal/api/handlers/product.go:52-58 | receipt keeps every stock counter equal to its lots' stock iff the new product's current stock equals its initial stock |
| Inventory.SaleAccepted | internal/api/handlers/sale.go:44-49 | the sale handler's field check: a product id, a positive quantity, non-negative sale price and unit cost, customer name and phone present |
| Inventory.SaleCheck | internal/api/handlers/sale.go:43-102 | the sale's checks in order: invalid values, then product not found, then insufficient stock when the name group holds less than the quantity |
| Inventory.Sell | internal/api/handlers/sale.go:132-184 | the ledger an accepted sale leaves: the allocation of its quantity over the sale query's lots (properties in `Inventory.SellKeeps`, `Allocation.AllocationShape`) |
| Inventory.SellKeeps | internal/api/handlers/sale.go:132-184 | a sale keeps the ledger consistent with its id added, keeps the product ids, and keeps stock counters in step |
| Inventory.DisplayProductKeeps | internal/api/handlers/sale.go:308-329 | storing the recipe sale's display product with no stock keeps the ledger consistent and every drift |
| Inventory.RecipeSaleKeeps | internal/api/handlers/sale.go:308-399 | a recipe sale keeps the ledger consistent, adds exactly the display product, and keeps stock counters in step |
| Inventory.ReverseKeeps | internal/api/handlers/sale.go:412-488 | deleting a sale keeps the ledger consistent with the sale gone, keeps the product ids, and keeps stock counters in step |
| Inventory.CostingPredictsSale | internal/api/handlers/product.go:194-197 | the costing query reports insufficient stock for q exactly when a sale of q of a product of that name fails its stock check |
| Inventory.Ledger.Take | internal/api/handlers/sale.go:141-183 | one allocator pass records the usage and decrements the lot and its owning product |
| Inventory.Ledger.Draw | internal/api/handlers/sale.go:132-184 | the allocator loop over the rows read before any write leaves the ledger the allocation describes |
| Inventory.Ledger.CheckSale | internal/api/handlers/sale.go:43-102 | the sale checks, in order: the fields, the product row, then the group's stock |
| Inventory.Ledger.CreateSale | internal/api/handlers/sale.go:36-194 | a refused sale returns its error and changes nothing; an accepted sale gets the next id and is allocated; consistency and stock-counter sync are kept |
| Inventory.Ledger.RecordSale | internal/api/handlers/sale.go:104-184 | after the checks, the sale gets the next id and is allocated |
| Inventory.Ledger.CheckIngredients | internal/api/handlers/sale.go:262-306 | the pre-check loop returns the first ingredient's failure, on the ledger as it stands |
| Inventory.Ledger.CreateRecipeSale | internal/api/handlers/sale.go:226-410 | an unknown recipe or a failing pre-check changes nothing, not even the id counters; otherwise the display product and the sale are stored and every ingredient allocated |
| Inventory.Ledger.RecordRecipeSale | internal/api/handlers/sale.go:308-399 | after the checks, the display product and the sale are stored and the ingredients allocated |
| Inventory.Ledger.DrawItems | internal/api/handlers/sale.go:331-399 | phase two's loop allocates each ingredient from the ledger the previous ones left |
| Inventory.Ledger.DeleteSale | internal/api/handlers/sale.go:412-488 | an unknown sale changes nothing; otherwise the sale's usages are credited back and removed with the sale, keeping consistency and sync |
| Inventory.Ledger.RemoveSale | internal/api/handlers/sale.go:426-483 | the found sale's usages are credited back newest movement date first, then its usages and the sale are removed, leaving the ledger the reversal describes |
| Inventory.Ledger.CreditBack | internal/api/handlers/sale.go:442-469 | the reversal loop credits each usage back in order |
| Inventory.Ledger.Restore | internal/api/handlers/sale.go:444-468 | one reversal pass credits the lot and the product owning it |
| Inventory.Ledger.CreateProduct | internal/api/handlers/product.go:23-71 | an invalid product changes nothing, not even the id counter; otherwise the product and its one lot are stored under the next id; stock-counter sync is kept iff current stock equals initial stock |
| Inventory.Ledger.GetAveragePrice | internal/api/handlers/product.go:101-218 | the query writes nothing and answers the costing function: name required, quantity must parse, then the quote over the group's lots in creation order |
| Pricing.Priced | internal/models/sale.go:33-47 | the derived prices: net = price × quantity minus a positive discount, VAT amount recomputed only for a positive rate, total = net + VAT amount (properties in `Pricing.PricedIdempotent`, `Pricing.PricedBounds`, `Pricing.StaleVatCarried`) |
| Pricing.Sale.constructor | internal/models/sale.go:21-23 | a loaded record starts with net price, VAT amount and total at zero, since they are not stored |
| Pricing.Sale.CalculatePrices | internal/models/sale.go:33-47 | net = price × quantity minus a positive discount; the VAT amount is recomputed only for a positive rate; total = net + VAT amount |
| Pricing.Sale.AfterFind | internal/models/sale.go:50-53 | loading a record derives its prices |
| Pricing.Sale.BeforeCreate | internal/models/sale.go:56-59 | creating a record derives its prices |
| Pricing.PricedIdempotent | internal/models/sale.go:33-47 | deriving the prices twice gives what deriving once gives |
| Pricing.LoadAndPrice | internal/api/handlers/sale.go:112-189 | a sale loaded and then priced again shows the figures of one calculation from zero |
| Pricing.StaleVatCarried | internal/models/sale.go:40-46 | with no VAT rate the VAT amount the record held is carried into the total |
| Pricing.PricedBounds | internal/models/sale.go:16-47 | within the declared field constraints, a discount no larger than the gross price and a positive VAT rate: 0 ≤ net ≤ gross, VAT = net × rate / 100, and net ≤ total ≤ 2 × net |

## Left out

- Request binding (gin's struct tags such as `binding:"required,gt=0"`) is not modelled. Only the handlers' own checks are. A request the tags would reject is treated like any other input. The tags appear only as `Pricing.Declared`.
- A recipe sale's quantity is not checked by the handler, only by binding. So `Inventory.Ledger.CreateRecipeSale` accepts any quantity.
- JSON, HTTP status codes, response bodies and error message texts are not modelled; errors are the `Error` datatype.
- Logging, the debug `SUM` query of the costing handler and its discarded error are left out.
- A failure of the database inside a transaction (a write or read returning an error) is not modelled. Every handler either commits all of its writes or, on its own checks, none.
- `strconv.ParseFloat` is left out. The costing quantity arrives as an `Option<real>`, where `None` stands for text that does not parse and a missing parameter reads as `Some(0.0)`.
- The costing query's first raw-query error is not inspected by the handler either. The model reads whatever rows the query returns.
- Quantities and prices are exact reals, not IEEE doubles; rounding is not modelled.
- Times are integers on one clock, and `now` is a parameter of `Inventory.Ledger.CreateProduct`.
- Concurrency and transaction isolation between handlers are not modelled; each handler runs alone.
- A recipe ingredient whose product row is missing makes the Go handler dereference a nil product while building its error message. The model reports `IngredientMissing` instead.
- The sale row is reduced to its id: customer, dates, note, price and the recipe sale's unit cost are not stored by the ledger model. Their price derivation is `Pricing`.
- The recipe sale's display product is stored under the next product id. Its category is not modelled.
- GetSales, GetProducts, DeleteProduct, the recipe CRUD handlers and the stock-movement listing are not part of this model. They have no allocation semantics.
- The SQL queries carry no tie-break, so the order of equal keys is up to the database. The model breaks ties by lot id, and by insertion order for usages.
