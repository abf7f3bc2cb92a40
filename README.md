# Store and point-of-sale model

A Dafny model of the core of a small store manager: a product catalog with
one stock row per product, a session cart and an all-or-nothing checkout,
the shopping list of low-stock products with restocking, the reports and
dashboard aggregations over the sale ledger, and expense recording with the
period's cash flow.

The database is one `Store` object (`db.dfy`). Its tables are Dafny
sequences and a map:
- products, in catalog order;
- inventory, a map from product id to quantity (at most one row per product);
- sales;
- sale line items;
- expenses.

`Store.Valid` is the consistency these tables keep:
- product ids, sale ids and expense ids are unique;
- every expense has a positive amount;
- no product has id 0, which stands for NULL in a line item's product reference;
- every inventory row belongs to a catalog product;
- every line item belongs to a recorded sale;
- every sale's total equals the sum of its own line items.

Each page becomes one module:
- `Inventory`: catalog CRUD and the stock table.
- `Sales`: offer, cart, checkout.
- `Purchasing`: the shopping list.
- `Reports`: the reports page.
- `Dashboard`: the dashboard.
- `Finance`: expenses and cash flow.

`Ledger` holds the queries they share: time windows, sums over sales, and
the line-item ⋈ product ⋈ sale join grouped by product name. `Seqs` holds
the generic sequence tools: lookup, next free id, the stable descending sort
and top-N. `Scenario` works through one day of the store in concrete numbers.

The model's representation choices:
- **Money** is integer cents.
- **Timestamps** are integer seconds. The date of a timestamp is
  `t / 86400`. The database stores a timestamp as text with its time of
  day and compares a date bound with it as text. So `t >= d` holds from
  midnight of `d` on, while `t <= d` holds only before midnight of `d`: a
  closing date bound is exclusive.
- **"Now"** is a parameter.
- **Primary keys** follow SQLite's rule: the largest id in use plus one, 1
  for an empty table.
- **The cart** is a field `entries: seq<CartEntry>`. It models the
  session's insertion-ordered dictionary, keyed by product id.
- **Checkout failure** is a parameter `storageFails`. When it is set,
  every pending write is discarded.

Where the text of the pages and their schema disagree, the model follows the
evident intent:
- The pages import record classes from a `bd` package, from `..BD.tablas`
  and a `Gastos` class that the schema file does not define.
- They use relationship names (`inventario`, `producto`) that `db.py` calls
  `inventario_item` and `producto_item`.

The model uses the tables and columns of `db.py:21-67` and the one-row
inventory relationship those names imply. For expenses, the page writes
only description and amount (`pages/6_Gestion_Financiera.py:33`) and
filters on `fecha_gasto` (line 48). The model's expense record holds those
three fields and an id.

Points of the source the model keeps as they are:
- **Rankings group by name.** The product report and the dashboard's best
  sellers group the joined rows by product name (`pages/4_Reportes.py:57`,
  `pages/1_Dashboard.py:30`), so two products sharing a name share a row.
- **Ties.** The queries and the pandas sorts leave the order of equal keys
  open. The model fixes one: rows in order of a name's first appearance,
  sorted stably. This is the model's own choice, not the source's.
- **Missing inventory row at checkout.** The checkout skips the decrement
  for a cart product with no inventory row (`pages/3_Ventas.py:79-81`).
- **Cart quantities.** Adding to the cart does not check the quantity
  against the stock. Only the page's number widget bounds it
  (`pages/3_Ventas.py:109-115`).

## Model

| member | source | states |
|---|---|---|
| `Seqs.IndexOf` | pages/3_Ventas.py:38 | the position found holds the key and no earlier position does; no position exactly when the key is absent |
| `Seqs.NextId` | db.py:23 | a new primary key is at least 1, larger than every id in use, and one more than the largest when the table is not empty |
| `Seqs.SortDesc` | pages/4_Reportes.py:97 | the sorted rows are non-increasing in the key and a permutation of the input |
| `Seqs.Top` | pages/4_Reportes.py:97-105 | `sort_values(ascending=False).head(n)`: the first n rows of the stable descending sort; specified by `Seqs.TopSpec` and `Seqs.TopExcluded` |
| `Seqs.TopSpec` | pages/4_Reportes.py:105 | `head(n)` of the descending sort has min(n, size) rows, is non-increasing, and together with the rows after the cut is the whole input; no row after the cut has a larger key than a kept row |
| `Seqs.TopExcluded` | pages/1_Dashboard.py:31 | a top-n list is drawn from the input, and every input row left out ranks no higher than every row kept |
| `Db.FindProduct` | pages/2_Inventario.py:48 | the lookup by id returns a position holding that id, and none exactly when no product has the id |
| `Db.Store.constructor` | db.py:21-67 | a fresh store has empty tables and is consistent |
| `Inventory.AddProduct` | pages/2_Inventario.py:28-45 | a new product with the next free id and its inventory row with the initial quantity are added together; the tables stay consistent; nothing else changes |
| `Inventory.SubmitNewProduct` | pages/2_Inventario.py:116-121 | the product is added if and only if the name is non-empty and both prices are positive; otherwise the store is unchanged |
| `Inventory.UpdateProduct` | pages/2_Inventario.py:47-56 | true exactly when the id exists; then name, description and both prices of that product change and nothing else does; false leaves the store unchanged |
| `Inventory.UpdateInventory` | pages/2_Inventario.py:58-64 | true exactly when the product has an inventory row, which is then set to the given quantity; other rows and tables unchanged |
| `Inventory.SubmitEdit` | pages/2_Inventario.py:149-151 | the edit form overwrites the product's fields when it exists and sets its stock when it has a row, each independently |
| `Inventory.DeleteProduct` | pages/2_Inventario.py:66-74 | true exactly when the id exists; the product and its inventory row are removed; the remaining products are exactly those with another id; its line items stay with their product reference set to NULL; sales and expenses are kept |
| `Inventory.Detached` | pages/2_Inventario.py:71 | the line items after the delete: the same number, those naming the product now name no product, the others unchanged |
| `Inventory.DetachedTotals` | pages/2_Inventario.py:71 | nulling the product reference leaves every sale's line-item total as it was |
| `Inventory.DetachedJoinsNothing` | pages/2_Inventario.py:71 | a nulled line item joins no product, including products added later |
| `Inventory.DeleteKeepsConsistent` | pages/2_Inventario.py:69-71 | deleting a product with its inventory row and nulling its line items' product reference keeps the tables consistent |
| `Inventory.RemainingProducts` | pages/2_Inventario.py:71 | with unique ids, removing one product leaves exactly the products with a different id |
| `Inventory.StockView` | pages/2_Inventario.py:86-97 | one row per product in catalog order with its id, name, price, description and stock, 0 for a product without an inventory row |
| `Sales.AvailableProducts` | pages/3_Ventas.py:31-35 | the products offered are the catalog products whose inventory row holds more than 0, in catalog order |
| `Sales.Added` | pages/3_Ventas.py:38-46 | the cart after adding a quantity of a product; specified by `Sales.AddExistingSpec` (product already in the cart) and `Sales.AddNewSpec` (new or unknown product) |
| `Sales.AddExistingSpec` | pages/3_Ventas.py:38-39 | adding a product already in the cart adds to its quantity, keeps its name and price snapshot and every other entry, and raises the total by price × quantity |
| `Sales.AddNewSpec` | pages/3_Ventas.py:40-46 | adding a catalog product not in the cart appends one entry with its current name and sale price and the quantity; the total rises by price × quantity; an unknown id leaves the cart as it was |
| `Sales.AddToCart` | pages/3_Ventas.py:37-47 | the cart becomes the added cart and keeps one entry per product; the result says whether the product was known |
| `Sales.Removed` | pages/3_Ventas.py:50-51 | the cart after deleting a product's entry; specified by `Sales.RemovedSpec` |
| `Sales.RemovedSpec` | pages/3_Ventas.py:49-54 | removing deletes only that product's entry and its amount from the total; removing an absent product changes nothing |
| `Sales.RemoveFromCart` | pages/3_Ventas.py:49-54 | the cart becomes the removed cart; the result is true exactly when the product was in it |
| `Sales.CartTotal` | pages/3_Ventas.py:63 | the sum of price × quantity over the cart; `Sales.DisplayedCartTotal` shows the displayed sum equals it and `Sales.LineItemsTotal` that the written line items add up to it |
| `Sales.DisplayedCartTotal` | pages/3_Ventas.py:126-130 | the running sum over the cart equals the cart total |
| `Sales.StockAfterSale` | pages/3_Ventas.py:78-81 | the inventory after a checkout; specified by `Sales.StockAfterSaleSpec` |
| `Sales.StockAfterSaleSpec` | pages/3_Ventas.py:78-81 | a checkout takes exactly each cart product's quantity off its inventory row, with no floor at zero, and leaves every other row and the set of rows unchanged |
| `Sales.LineItemsFor` | pages/3_Ventas.py:68-76 | one line item per cart entry, in cart order, carrying the sale id, product, quantity and price snapshot |
| `Sales.LineItemsTotal` | pages/3_Ventas.py:63-76 | the line items written for a sale add up to the cart total stored on the sale |
| `Sales.PendingWrites` | pages/3_Ventas.py:68-81 | the checkout loop produces exactly the cart's line items and the decremented inventory |
| `Sales.FinishSale` | pages/3_Ventas.py:56-91 | an empty cart writes nothing; a storage failure rolls back every write and keeps the cart; otherwise one sale with the next id, the current time and the cart total, its line items and the stock decrements are committed and the cart is emptied; the tables stay consistent |
| `Sales.CommitKeepsConsistent` | pages/3_Ventas.py:62-83 | after a commit every sale, the new one included, still totals its own line items and sale ids stay unique |
| `Purchasing.IsLow` | pages/5_Lista_de_Compras.py:36 | stock (0 without an inventory row) at or under the threshold; the flag `Purchasing.LowStockReport` sets and the filter `Purchasing.LowStock` applies |
| `Purchasing.LowStock` | pages/5_Lista_de_Compras.py:45-46 | the shopping list holds exactly the products with stock at or under the threshold, in catalog order; a product without an inventory row is on it for any threshold of at least 1 |
| `Purchasing.LowStockReport` | pages/5_Lista_de_Compras.py:34-46 | one alert row per product with its stock and a low flag that is set exactly when stock ≤ threshold, and the shopping list built alongside |
| `Purchasing.Restock` | pages/5_Lista_de_Compras.py:67-75 | a product with an inventory row gets the purchased amount added to it; without one nothing changes and an error is returned |
| `Ledger.WindowDates` | pages/4_Reportes.py:41 | the reports' period holds exactly the timestamps dated start through end; the cash-flow range holds those dated start up to, not including, end |
| `Ledger.SalesTotalSameWindow` | pages/6_Gestion_Financiera.py:47 | sales totals and counts over two windows holding the same timestamps are equal |
| `Ledger.SalesTotal` | pages/4_Reportes.py:70 | the sum of sale totals in the window; specified by `Ledger.SalesCountZero`, `Ledger.SalesTotalBounds` and `Ledger.SalesTotalSameWindow` |
| `Ledger.SalesCount` | pages/4_Reportes.py:72 | the number of sales in the window; specified by `Ledger.SalesCountZero` and `Ledger.SalesTotalBounds` |
| `Ledger.SalesCountZero` | pages/1_Dashboard.py:18-19 | no sale counts exactly when no sale lies in the window, and then the window's total is 0 |
| `Ledger.SalesTotalBounds` | pages/1_Dashboard.py:43 | when each sale in the window totals between lo and hi, the window's sum lies between lo and hi times the count |
| `Ledger.JoinedLines` | pages/4_Reportes.py:50-56 | the product join over the window, at most one line per line item; specified exactly by `Ledger.JoinedLinesExact` |
| `Ledger.Joinable` | pages/4_Reportes.py:54-56 | the line items whose product and sale exist with the sale in the window, in order and with their multiplicity |
| `Ledger.JoinedLinesExact` | pages/4_Reportes.py:50-56 | the join holds exactly one line per joinable line item, in order, built from that item and its product at current catalog prices |
| `Ledger.JoinedLinesSound` | pages/4_Reportes.py:50-56 | every joined line comes from a line item, the product it names and its sale, which lies in the window, with profit = quantity × (current sale price − current purchase price) |
| `Ledger.JoinedLinesComplete` | pages/4_Reportes.py:54-56 | every line item whose product and sale exist, with the sale in the window, puts its line into the join |
| `Ledger.GroupByName` | pages/4_Reportes.py:57 | `GROUP BY nombre` over the joined lines; specified by `Ledger.GroupByNameSpec` and `Ledger.RowsAreGrouped` |
| `Ledger.GroupByNameSpec` | pages/4_Reportes.py:49-58 | the grouped rows have distinct names, one per product name sold, each holding that name's summed quantity and profit; their profits add up to the total profit |
| `Ledger.RowsAreGrouped` | pages/1_Dashboard.py:24-30 | every grouped row is a name sold with exactly that name's summed quantity and profit |
| `Ledger.SoldForSpec` | pages/4_Reportes.py:120 | the quantity looked up for a name in the grouped rows is what that name sold, 0 when it sold nothing |
| `Reports.DayAmountRow` | pages/4_Reportes.py:42-43 | in date-ordered daily rows the amount of a date is the total of the one row for it |
| `Reports.AddToDayAmount` | pages/4_Reportes.py:40-42 | adding a sale to its date raises that date's amount by the sale's total and no other date's |
| `Reports.AddToDayAscending` | pages/4_Reportes.py:43 | adding a sale keeps the daily rows strictly ascending by date |
| `Reports.Daily` | pages/4_Reportes.py:37-47 | the daily series is strictly ascending by date, has a row exactly for the dates with a sale in the period, each row the sum of that date's sales, and the rows add up to the period's total |
| `Reports.Stocked` | pages/4_Reportes.py:115-117 | the join of products with inventory: an order-preserving subsequence of the catalog holding each product with an inventory row as often as the catalog does, and no other |
| `Reports.StockLines` | pages/4_Reportes.py:115-120 | as many comparison rows as stocked products, the i-th holding the i-th stocked product's name, its stock, and the quantity sold under its name (0 when none) |
| `Reports.StockLinesMembers` | pages/4_Reportes.py:115-120 | a comparison row occurs exactly when some product with an inventory row gives it |
| `Reports.Report` | pages/4_Reportes.py:64-72 | no report when the start date is after the end date; otherwise the total is the sum of sales dated start through end, the profit is the total over the joined lines, and the transactions count those sales |
| `Reports.ReportRankings` | pages/4_Reportes.py:95-109 | the product rows have distinct names, and the row for each name is that name's sums (none for a name not sold); each ranking shows min(10, rows) of them, largest first by quantity or profit, and no row left out beats a row shown |
| `Reports.ComparisonSpec` | pages/4_Reportes.py:113-121 | the comparison is a permutation of the stock lines (one row per stocked product) ordered by quantity sold, largest first; its rows are exactly the stocked products with their stock and the quantity their name sold in the period |
| `Dashboard.SalesOfDay` | pages/1_Dashboard.py:17-20 | the count is the number of sales on the day; the sum is absent exactly when there are none, otherwise it is their total |
| `Dashboard.AverageTicket` | pages/1_Dashboard.py:43 | ticket × count equals the day's total when there are sales, and the ticket is 0 when there are none |
| `Dashboard.TicketBounds` | pages/1_Dashboard.py:43 | on a day with sales the average ticket lies between the smallest and the largest sale total |
| `Dashboard.DisplayedDayTotal` | pages/1_Dashboard.py:49 | the card shows the sum when there is one and 0 when the sum is absent |
| `Dashboard.DisplayedDayTotalSpec` | pages/1_Dashboard.py:42-49 | the card shows what the day's sales add up to, 0 on a day without sales |
| `Dashboard.TopSellers` | pages/1_Dashboard.py:23-31 | the day's join grouped by name, top five by quantity; specified by `Dashboard.TopSellersSpec` |
| `Dashboard.TopSellersSpec` | pages/1_Dashboard.py:23-31 | at most five rows, non-increasing in quantity, drawn from the day's grouped rows with no name twice, each a name sold that day with its summed quantity; no name left out sold more than a name listed |
| `Ledger.SubRowsDistinct` | pages/1_Dashboard.py:30-31 | rows drawn from grouped rows with distinct names keep their names distinct |
| `Finance.RecordExpense` | pages/6_Gestion_Financiera.py:31-38 | an expense is appended, with the next id, the current time and the given values, exactly when the description is non-empty and the amount positive; otherwise nothing changes; the store stays valid, so every expense total over any window is non-negative |
| `Finance.RecordedExpenseId` | pages/6_Gestion_Financiera.py:33-35 | a recorded expense's id is new, so expense ids stay unique |
| `Finance.ExpensesTotal` | pages/6_Gestion_Financiera.py:48 | the sum of expense amounts in the window; specified by `Finance.ExpensesTotalNonNegative` and `Finance.ExpensesTotalSameWindow` |
| `Finance.ExpensesTotalNonNegative` | pages/6_Gestion_Financiera.py:48 | expenses that passed the form add up to a non-negative total, 0 exactly when none falls in the range |
| `Finance.CashFlowOf` | pages/6_Gestion_Financiera.py:47-49 | corrected range: sales and expenses are the sums over the dates start through end; the net is their difference and is negative exactly when expenses exceed sales |
| `Finance.CashFlowAsWritten` | pages/6_Gestion_Financiera.py:47-49 | the page's query: sales and expenses summed from midnight of the start up to midnight of the end date, net = sales − expenses |
| `Finance.AsWrittenDropsEndDate` | pages/6_Gestion_Financiera.py:47-48 | the page's range start..end gives exactly the corrected cash flow of start..end − 1 |
| `Finance.EndDateSaleMissed` | pages/6_Gestion_Financiera.py:45-47 | a sale at 10:00 on the default end date (today) is 0 in the page's figure and counted in the corrected one |
| `Finance.ExpensesTotalSameWindow` | pages/6_Gestion_Financiera.py:48 | expense totals over two windows holding the same timestamps are equal |
| `Finance.CashFlowMatchesReport` | pages/6_Gestion_Financiera.py:47 | the corrected cash flow's sales figure equals the report's total sales for the same dates |
| `Finance.RecordedExpenseLowersNet` | pages/6_Gestion_Financiera.py:48-49 | recording an expense dated start through end lowers the net by its amount and leaves the sales figure alone; one outside the range changes nothing |
| `Finance.ChartAmounts` | pages/6_Gestion_Financiera.py:63-69 | the chart's two bars are non-negative and equal the sales and expense figures up to sign |
| `Scenario.AddThree` | pages/3_Ventas.py:40-46 | adding 3 of a product sold at 5.00 to an empty cart makes one entry with its name and that price |
| `Scenario.OneSaleCheckout` | pages/3_Ventas.py:62-83 | selling that cart totals 15.00, takes the stock from 10 to 7 and writes one line item of 3 at 5.00 |
| `Scenario.OneSaleReport` | pages/4_Reportes.py:64-72 | that day's report shows revenue 15.00, one transaction, profit 9.00 and the product first with quantity 3 |

## Left out

- Rendering, forms, session-state plumbing, reruns, charts and table formatting are left out. They are presentation only. Form widgets' own bounds (minimum prices, minimum and maximum quantities) are not modelled either: the operations accept any integers.
- `Finance.RecordExpense`: no source file defines `Gastos`, so the type and default of `fecha_gasto` are not given. The model takes it to be a timestamp set at recording time, like `fecha_venta` (`db.py:52`), and stores `now` in it. The end-date half of the cash-flow finding for expenses depends on that reading. A date-only column would be stored as `YYYY-MM-DD`, and `<= end_date` would then keep the end date's expenses.
- The engine and session setup and each page's `get_db` generator are left out. They are infrastructure. The store is a single object that the operations receive.
- Floating point is left out. Prices are `Numeric(10, 2)` and the cart stores `float(precio_venta)`; the model uses exact integer cents, with no rounding and no column width bound. The display format `:.2f` is not modelled.
- Concurrency is left out: two checkouts racing on the same stock, and locking. A storage failure is an input to the checkout, not a modelled exception.
- The clock is left out. Timestamps come in as parameters. The inventory rows' `ultima_actualizacion` timestamp is not modelled.
- The text comparison of dates with timestamps is modelled only through its effect on the window bounds. The reports page's `cast(..., Date)` is modelled as the calendar date of the timestamp. The database's own casting rules are not modelled.
- The product report's SQL has no `ORDER BY`. Its grouped rows are modelled in order of each name's first appearance, and the rankings use a stable sort. The database's row order and pandas' tie order are unspecified in the source.
- `AddToCart`: the page raises an error when the product id is unknown. The model instead returns `false` and leaves the cart unchanged.
- The backup and restore page (pages/7_Datos.py) is left out: file and archive I/O. The landing page, `store_data.py` and the unused `Clientes` table are also left out.
- Deleting a product has no delete cascade to its line items (`db.py:35`). The session sets their product reference to NULL before deleting the product, and `Inventory.DeleteProduct` models this with `Db.NoProduct`. The sales they belong to keep their totals. The model does not cover a database that enforces foreign keys, which SQLite does not by default.

## Findings

| source | as written | input that shows it | evidently intended | confidence | as-written member | corrected member |
|---|---|---|---|---|---|---|
| pages/6_Gestion_Financiera.py:45-48 | the cash-flow filter is `fecha <= end_date`; against a stored timestamp this holds only before midnight of the end date | default range ending today, one sale of 15.00 at 10:00 today: the page's sales figure is 0 (`Finance.EndDateSaleMissed`) | every date from start through end counted, as the reports page does with its one-day extension | medium, not executed | `Finance.CashFlowAsWritten` | `Finance.CashFlowOf` |
