# CAISSE point of sale: a verified model of its cart, catalog and ledgers

CAISSE is a browser point-of-sale application made of three pages:

- **The till** (`CaisseApp`). A cashier scans barcodes into a cart and adjusts quantities. The till then takes the payment, records the sale and lowers the stock.
- **The catalog page** (`AdminApp`). Products are added, edited, deleted and searched there. Every stock change is written to a stock ledger.
- **The history page** (`HistoriqueApp`). It shows the sales and stock ledgers newest first and sums the sales into four figures. It filters both ledgers by a date range and opens the detail of one sale.

All state lives in the browser's key-value store. This model keeps the logic of the three pages and drops the page rendering.

## Layout

- `records.dfy` (`Records`): the stored records.
  - Product, stock movement, cart line and sale.
  - The ledger reasons and payment method names.
- `seqs.dfy` (`Seqs`): `findIndex`, `filter` and `reverse` as functions, with the facts the model uses about them.
- `catalog.dfy` (`Catalog`): the catalog's pure logic.
  - Lookups by barcode and by id.
  - The barcode rules and the validation chain of the product form.
  - The duplicate-barcode check.
  - Saving (add and edit) and deleting, each with its stock movement.
  - The search filter.
  - The catalog invariants: unique barcodes, unique ids, stock at least 0.
- `cart.dfy` (`Cart`): the cart's pure logic.
  - Total and benefit as folds.
  - Adding a scanned barcode, changing a quantity, removing a line.
- `checkout.dfy` (`Checkout`): the checkout's pure logic.
  - The stock update, one cart line at a time, with the clamp at 0 and its 'Vente' movements.
  - The sale record and the cash gate.
- `ledger.dfy` (`Ledger`): the history page's pure logic.
  - The statistics fold.
  - The date window and the newest-first filtered views.
  - The lookup of a sale by id and the payment labels.
- `storage.dfy` (`Storage`): class `Store`. It holds the four stored keys: `products`, `salesHistory`, `stockHistory` and `currentCart`.
- `caisse.dfy`, `admin.dfy`, `historique.dfy`: classes `CaisseApp`, `AdminApp` and `HistoriqueApp`.
  - Each class keeps the fields its page updates in place and a reference to the shared `Store`.
  - Each method updates them step by step, as the page does.
  - Each method's `ensures` ties the new state to the pure function of the modules above. The properties are proved about those functions.

Representation choices:

- Money is `real` and is exact.
- Stock and quantities are `int`.
- Timestamps are milliseconds since 1970 (`int`).
- A day picked in a date field is a day number since 1970-01-01.

## Model

| member | source | states |
|---|---|---|
| Catalog.FindProductByBarcode | src/script.js:107-110 | None exactly when no product has the barcode; otherwise the first product in catalog order that has it |
| Catalog.ProductIndex | src/script.js:476 | the position of the first product with the barcode, or -1 exactly when no product has it |
| Catalog.IdIndex | src/admin.js:245 | the position of the first product with the id, or -1 exactly when no product has it |
| Catalog.StockEntry | src/admin.js:326-341 | the movement copies the product's name and barcode, carries both stock levels, the reason, id and time, and oldStock + variation = newStock |
| Catalog.BarcodeFieldFlagged | src/admin.js:344-354 | the barcode field is flagged exactly when it is non-empty and not made only of digits |
| Catalog.Validate | src/admin.js:203-232 | the result is a violated rule, and every rule checked before it holds; None exactly when no rule is violated (name, barcode, digits, cost, price, stock, in that order) |
| Catalog.ConflictIndex | src/admin.js:236-241 | -1 exactly when no product holds the barcode under an id other than the one being edited; otherwise a product that does |
| Catalog.SaveProduct | src/admin.js:196-288 | a save passed validation, adds at most one product and only appends at most one movement to the stock ledger; its refusals are characterised by `Catalog.SaveRejections`, its two save paths by `Catalog.SaveEdit` and `Catalog.SaveAdd`, and the invariants it keeps by `Catalog.SaveKeepsCatalogValid` |
| Catalog.SaveRejections | src/admin.js:203-246 | a validation refusal happens exactly when a field rule is violated. A duplicate refusal happens exactly when the fields are valid and another product holds the barcode. An edit of an absent id is refused. The edited product never conflicts with itself |
| Catalog.SaveEdit | src/admin.js:243-261 | an edit rewrites only name, barcode, cost, price and stock at the product's position, keeps id and creation time, leaves every other product as it was, and appends one 'Modification manuelle' movement exactly when the stock changed |
| Catalog.SaveAdd | src/admin.js:263-283 | an add appends exactly one product at the end with the fresh id and time, and appends a 0 -> stock 'Stock initial' movement exactly when the stock is positive |
| Catalog.SaveKeepsCatalogValid | src/admin.js:234-285 | a successful save keeps barcodes unique, ids unique and stock at least 0, and only appends to the stock ledger |
| Catalog.DeleteProduct | src/admin.js:305-323 | a delete either changes nothing or removes one product and appends one movement; `Catalog.DeleteUnknownId`, `Catalog.DeleteRemovesExactly` and `Catalog.DeleteKeepsCatalogValid` state which happens and what is written |
| Catalog.DeleteUnknownId | src/admin.js:305-323 | deleting an id no product has changes neither the catalog nor the ledger |
| Catalog.DeleteRemovesExactly | src/admin.js:305-318 | deleting splices out exactly the product with that id, keeps the others in order, and appends a stock -> 0 'Suppression du produit' movement |
| Catalog.SpliceMembers | src/admin.js:305-318 | with unique ids, cutting out the product at one position leaves exactly the products with another id |
| Catalog.DeleteKeepsCatalogValid | src/admin.js:305-318 | a delete keeps the catalog invariants and only appends to the stock ledger |
| Catalog.LowerChar | src/admin.js:152 | ASCII capitals map to their lower case and characters that are not capitals are unchanged |
| Catalog.Lower | src/admin.js:152 | lower-casing keeps the length and lower-cases each character in place |
| Catalog.ContainsAt | src/admin.js:152-153 | a query occurring at any position of the text is found by the search |
| Catalog.ContainsWitness | src/admin.js:152-153 | whatever the search finds occurs in the text at some position |
| Catalog.FilterProducts | src/admin.js:149-156 | a product is shown exactly when it is in the catalog and its lower-cased name contains the lower-cased query or its barcode contains the query |
| Catalog.EmptyQueryShowsAll | src/admin.js:149-156 | an empty search shows the whole catalog in order |
| Catalog.SearchIdempotent | src/admin.js:149-156 | searching a search result again by the same query changes nothing |
| Cart.LineIndex | src/script.js:226 | the position of the line with the barcode, or -1 exactly when no line has it |
| Cart.Total | src/script.js:346-348 | `calculateTotal`, the sum of price x quantity over the lines; `Cart.SumConcat`, `Cart.SumUpdate`, `Cart.TotalNonNegative` and `Cart.TotalExample` state its properties |
| Cart.Benefit | src/script.js:350-352 | `calculateBenefit`, the sum of (price - cost) x quantity over the lines; `Cart.BenefitIsTotalMinusCost` and `Cart.TotalExample` state its properties |
| Cart.SumConcat | src/script.js:346-352 | the fold over two carts put end to end is the sum of their folds |
| Cart.SumUpdate | src/script.js:346-352 | replacing one line moves the fold by the difference of the two lines |
| Cart.BenefitIsTotalMinusCost | src/script.js:346-352 | the benefit equals the total less the cost of the goods |
| Cart.TotalNonNegative | src/script.js:346-348 | non-negative prices and quantities give a non-negative total |
| Cart.TotalExample | src/script.js:346-352 | two lines (10 x 2 at cost 6, 5 x 3 at cost 2) total 35 with benefit 17 |
| Cart.RemoveLines | src/script.js:274-279 | after the removal no line has the barcode, and a line remains exactly when it was there with another barcode |
| Cart.RemoveSplices | src/script.js:274-279 | with one line per barcode, removal splices out that one line and keeps the rest in order; an absent barcode changes nothing |
| Cart.RemoveKeepsQuantitiesPositive | src/script.js:274-279 | removal keeps every quantity positive |
| Cart.RemoveKeepsLinesUnique | src/script.js:274-279 | removal keeps at most one line per barcode |
| Cart.AddProduct | src/script.js:212-250 | an unknown barcode, zero live stock or a line already at the live stock leaves the cart exactly as it was. Otherwise the existing line goes up by exactly 1, or one new line with quantity 1 and snapshots of the product is appended. Other lines are untouched |
| Cart.AddKeepsCartValid | src/script.js:212-250 | after a successful scan the barcode has a line whose quantity is within the live stock, and one line per barcode and positive quantities are kept |
| Cart.AddProductTotal | src/script.js:212-250 | a scan that raises an existing line adds that line's snapshot price to the total; a scan that adds a line adds the catalog price |
| Cart.UpdateQuantity | src/script.js:252-272 | a missing line is a no-op. A new quantity of 0 or less removes the line. One above the line's snapshot stock is refused with the cart unchanged. Anything else becomes the quantity. Other lines are untouched |
| Cart.QuantityChangeTotals | src/script.js:257-269 | changing line i by `change` moves the total by price x change and the benefit by (price - cost) x change |
| Cart.UpdateQuantityTotals | src/script.js:252-272 | a successful quantity change moves total and benefit by the line's price and margin times the change |
| Checkout.ClampAtZero | src/script.js:481 | the result is at least 0 and at least the input, and is one of the two |
| Checkout.SameBarcodesSameIndex | src/script.js:475-481 | lowering stock never changes which product a barcode finds |
| Checkout.SellLine | src/script.js:476-494 | one `forEach` step keeps the catalog's length and logs one movement exactly when the line's barcode finds a product; `Checkout.SellLineEffect` and `Checkout.SellLineMovement` state what it writes |
| Checkout.SellLineEffect | src/script.js:475-481 | one cart line changes only the product its barcode finds, and that product's stock becomes max(0, old stock - quantity) |
| Checkout.SellLineMovement | src/script.js:476-494 | one cart line logs a single 'Vente' movement when its barcode finds a product and none otherwise; that movement takes the given id, the product's name, its stock before the line as oldStock and its clamped stock after as newStock, and variation = -quantity |
| Checkout.SellLinesStep | src/script.js:475-495 | walking one more cart line applies that line to the catalog the previous lines left and appends its movements |
| Checkout.SellLines | src/script.js:475-495 | the stock update keeps the catalog's length and appends at most one movement per cart line |
| Checkout.SellLinesOnlyStock | src/script.js:475-495 | the stock update changes nothing but stock, and every stock it writes is at least 0 |
| Checkout.SellLinesUntouched | src/script.js:475-495 | a product no cart line names keeps its stock |
| Checkout.SellLinesKeepsCatalogValid | src/script.js:471-499 | the stock update keeps stock at least 0 and barcodes and ids unique |
| Checkout.SellLinesMovements | src/script.js:475-495 | one movement per cart line whose barcode is in the catalog, in cart order, each with reason 'Vente', the line's barcode, variation = -quantity and newStock = max(0, oldStock - quantity) |
| Checkout.LastLineMirrors | src/script.js:475-494 | a line whose barcode no earlier line names logs the stock its product had before the whole walk and the stock it leaves |
| Checkout.MirrorKeptByOtherLine | src/script.js:475-494 | a line with another barcode does not change the stock an earlier movement mirrors |
| Checkout.SellLinesMirrorStock | src/script.js:475-495 | with one line per barcode, the j-th movement names the product the j-th sold line finds and carries that product's stock before the walk as oldStock and after it as newStock: the ledger mirrors the stock decrements |
| Checkout.SellLinesMatched | src/script.js:475-481 | with one line per barcode, each product a line finds ends at max(0, old stock - quantity) |
| Checkout.SaleVariationVersusDelta | src/script.js:478-491 | the logged variation equals newStock - oldStock exactly when the stock covered the quantity |
| Checkout.MakeSale | src/script.js:432-444 | the sale's items are the cart and its total and benefit are the cart's. A cash sale records what was received and change = received - total. Other methods record no details |
| Checkout.Checkout | src/script.js:418-469 | the payment is refused exactly when it is cash below the total. Otherwise exactly one sale matching the cart is appended, with non-negative change for cash, and the catalog and stock ledger become what the stock update gives |
| Checkout.CheckoutKeepsCatalogValid | src/script.js:418-499 | a committed checkout keeps stock at least 0 and barcodes and ids unique, changes only stock, and leaves products the cart does not name untouched |
| Ledger.ItemsQuantity | src/historique.js:96 | with positive quantities, a sale's unit count is at least its number of lines |
| Ledger.Summarize | src/historique.js:88-97 | the number of orders is the number of sales |
| Ledger.Statistics | src/historique.js:84-97 | the accumulating loop computes exactly the figures of the sales list |
| Ledger.SummarizeConcat | src/historique.js:93-97 | the figures of two lists end to end are the sums of their figures |
| Ledger.SummarizeReverse | src/historique.js:374-384 | the figures of the newest-first view equal those of the ledger order |
| Ledger.SummaryAfterCheckout | src/historique.js:88-97 | a committed checkout adds one order, the cart's total, its benefit and its quantities to the figures |
| Ledger.ProfitIsRevenueLessCost | src/historique.js:93-97 | when every sale matches its items, the profit is the revenue less the cost of the goods sold |
| Ledger.FilterByWindow | src/historique.js:346-357 | an entry is kept exactly when it is in the ledger and its timestamp is inside the window |
| Ledger.WindowOfNewestFirst | src/historique.js:346-357 | the filtered list is the newest-first view with the entries outside the window taken out |
| Ledger.WholeWindowIsUnfiltered | src/historique.js:346-357 | a window holding every timestamp gives the unfiltered newest-first view |
| Ledger.WindowAsWritten | src/historique.js:341-343 | the window the code builds starts at UTC midnight of the first day and ends at the last millisecond of the local day holding UTC midnight of the last day |
| Ledger.LocalWindow | src/historique.js:341-343 | an instant is inside the window exactly when its local day lies between the two picked days |
| Ledger.AsWrittenAgreesInUtc | src/historique.js:341-343 | on a clock at UTC, the window as written is the local-day window |
| Ledger.AsWrittenMissesEarlySale | src/historique.js:341-343 | one hour ahead of UTC, a sale at 00:30 local time on the picked day falls outside the window as written |
| Ledger.AsWrittenShowsPreviousEvening | src/historique.js:341-343 | five hours behind UTC, the window as written for one day holds the previous evening and misses noon of the day |
| Ledger.FindSale | src/historique.js:191-192 | None exactly when no sale has the id; otherwise the first sale with that id |
| Ledger.FindSaleStable | src/historique.js:191-192 | appending sales does not change which sale an id finds |
| Ledger.PaymentMethodText | src/historique.js:265-272 | cash, card and mobile get their fixed labels and any other method is shown as it is |
| Ledger.PaymentLabelsDistinct | src/historique.js:265-272 | two methods share a label only if one of them is spelt as a label |
| Caisse.CaisseApp.constructor | src/script.js:359-365 | the cart is the saved cart when there is one, otherwise empty |
| Caisse.CaisseApp.AddProductToCart | src/script.js:212-250 | the cart becomes what `Cart.AddProduct` gives; it is saved exactly on the paths that change it; the catalog and ledgers are untouched |
| Caisse.CaisseApp.UpdateItemQuantity | src/script.js:252-272 | the cart becomes what `Cart.UpdateQuantity` gives; it is saved on removal and on change, not on a no-op or refusal |
| Caisse.CaisseApp.RemoveItemFromCart | src/script.js:274-279 | the cart keeps the lines with other barcodes and is saved |
| Caisse.CaisseApp.ClearCart | src/script.js:281-285 | the cart is empty and saved empty |
| Caisse.CaisseApp.SaveSale | src/script.js:465-469 | the sale is appended to the sales ledger and nothing else changes |
| Caisse.CaisseApp.UpdateStock | src/script.js:471-499 | the loop leaves the catalog and stock ledger as `Checkout.SellLines` gives them, the ledger being only appended to |
| Caisse.CaisseApp.ProcessPayment | src/script.js:418-463 | a refused payment changes nothing. Otherwise the ledgers and catalog become what `Checkout.Checkout` gives, the cart is empty and the saved cart is removed |
| Admin.AdminApp.constructor | src/admin.js:4-7 | no product is being edited or awaiting deletion |
| Admin.AdminApp.OpenProductModal | src/admin.js:159-166 | the form edits the given product (None: a new one) |
| Admin.AdminApp.CloseProductModal | src/admin.js:189-194 | no product is being edited |
| Admin.AdminApp.DeleteProduct | src/admin.js:294-298 | the product awaits deletion |
| Admin.AdminApp.CloseDeleteModal | src/admin.js:300-303 | no product awaits deletion |
| Admin.AdminApp.AddStockHistory | src/admin.js:326-341 | exactly one movement with variation = newStock - oldStock is appended and earlier entries are kept |
| Admin.AdminApp.SaveProduct | src/admin.js:196-288 | a refusal returns its reason and changes nothing; a save writes the catalog and ledger `Catalog.SaveProduct` gives and closes the form |
| Admin.AdminApp.ConfirmDelete | src/admin.js:305-323 | the catalog and ledger become what `Catalog.DeleteProduct` gives, a product is removed exactly when reported, and the dialog is closed in every case |
| Historique.HistoriqueApp.constructor | src/historique.js:4-18 | both views are their ledgers newest first and the panel shows the whole sales ledger's figures |
| Historique.HistoriqueApp.LoadStatistics | src/historique.js:84-103 | the panel shows the figures of the whole sales ledger |
| Historique.HistoriqueApp.UpdateFilteredStatistics | src/historique.js:374-390 | the panel shows the figures of the sales on view |
| Historique.HistoriqueApp.LoadSalesHistory | src/historique.js:136-140 | the sales view is the ledger reversed |
| Historique.HistoriqueApp.LoadStockHistory | src/historique.js:285-289 | the stock view is the ledger reversed |
| Historique.HistoriqueApp.FilterByDate | src/historique.js:332-364 | with a date missing nothing changes. Otherwise both views keep exactly the entries whose local day lies between the two days, newest first, and the panel shows the kept sales' figures |
| Historique.HistoriqueApp.ClearDateFilter | src/historique.js:366-372 | both views are the whole ledgers reversed and the panel's figures are both the ledger's and the view's |
| Historique.HistoriqueApp.ClearAllHistory | src/historique.js:275-283 | once confirmed, both ledgers and views are empty and the figures are zero; otherwise nothing changes; the catalog is untouched |
| Historique.HistoriqueApp.ShowSaleDetail | src/historique.js:190-258 | the sale shown is the first with the id; an unknown id changes nothing |
| Historique.HistoriqueApp.CloseSaleDetailModal | src/historique.js:260-263 | no sale detail is open |

## Where the code disagrees with itself

- **Sale movements.** `addStockHistory` logs a movement's variation as `newStock - oldStock` (src/admin.js:336). The till's stock update logs `-quantity` instead (src/script.js:491). The two differ when the stock did not cover the quantity and was clamped at 0. The model follows each path as written. `Checkout.SaleVariationVersusDelta` states exactly when the two agree.
- **The date window.** The comment "Include end of day" beside `setHours(23, 59, 59, 999)` (src/historique.js:343) shows that the window is meant to run over whole local days. The window the code actually builds is different; see Findings. The history page here uses the local-day window.

## Left out

- **Rendering.** Page rendering, modals, tabs, theme, toasts and timers are presentation only. The sale-detail and delete dialogs are kept only as the ids the pages remember.
- **Scanning.** Camera scanning goes through a foreign asynchronous library. The model takes the barcode string it yields.
- **Export and printing.** The spreadsheet export and the printed receipt are formatting through foreign APIs.
- **Storage.** JSON encoding and the key-value store are a `Store` object with one field per key. A missing key reads as an empty list.
- **Ids and clocks.** Generated ids and clock readings are parameters.
  - A checkout takes one time for all its movements; the code reads the clock for each of them.
  - Adding a product takes one time for its `createdAt` and for its 'Stock initial' movement; the code reads the clock once for each (src/admin.js:272, 331).
  - The checkout takes one id per cart line for the movements. Lines whose barcode has left the catalog leave their id unused.
- **Floating point.** Floating-point rounding, `toFixed` and the parsing of form fields are left out. Form values arrive parsed: a cost or price that does not parse is None; the stock is already `parseInt(...) || 0`; the name and barcode are already trimmed.
- **The received amount.** The cash gate uses `parseFloat(...) || 0`, but the recorded received amount is the bare `parseFloat`, which may be NaN. The model takes one received amount for both.
- **The cash gate and rounding.** The gate compares exact amounts, where the code compares floating-point sums.
- **Confirmation dialogs.** `confirm()` is the `confirmed` parameter of `ClearAllHistory`. The `beforeunload` hook that saves the cart is not modelled.
- **Partial commits.** A page that stops between saving the sale and updating the stock is not modelled. Each method runs to completion.
- **Page start-up.** The history page's duplicated bootstrap redeclares `const historique`. It is a load-time error of the page and is not modelled.
- **Default dates.** `setDefaultDates` writes the date fields and is presentation. `FilterByDate` takes the two fields' values.
- **Lower-casing.** `toLowerCase` is modelled for ASCII and the Latin-1 capitals only. Other scripts keep their case in the search.
- Historique.HistoriqueApp.FilterByDate: filters by the corrected local-day window `Ledger.LocalWindow`, not by the window src/historique.js:341-343 builds (`Ledger.WindowAsWritten`). On a clock away from UTC the page as written shows a day-shifted selection that this method does not reproduce; the Findings row and its lemmas describe that window.
- **Time zones.** The local clock is a fixed offset from UTC of less than a day. Daylight-saving changes are not modelled.
- **Edit of a missing product.** The code throws on it (`products[-1].stock`). The model turns it into the refusal `EditTargetMissing` with nothing changed. Opening the edit form for a missing id also throws; `OpenProductModal` only records the id.

## Findings

| source | as written | input that shows it | evidently intended | confidence | as-written member | corrected member |
|---|---|---|---|---|---|---|
| src/historique.js:341-343 | `new Date('YYYY-MM-DD')` is UTC midnight, but `setHours(23, 59, 59, 999)` works in local time, so the window starts at UTC midnight of the first day and ends at the end of the local day holding UTC midnight of the last day | one hour ahead of UTC, from = to = day 20000, a sale at 00:30 local time that day is left out; five hours behind UTC, the same filter keeps 21:00 of the previous day and drops noon of the day itself | keep exactly the entries whose local calendar day lies between the two picked days, as the page's dates are shown in local time | high for the shift, not executed | Ledger.WindowAsWritten | Ledger.LocalWindow |
