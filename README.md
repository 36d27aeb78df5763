# Inventory and sales tool: a Dafny model of its domain logic

The tool is a single-page shop manager. An operator signs up and logs in,
keeps a product catalog, records sales against stock, and reads dashboards,
reports and a CSV export. All state is three collections in browser storage:
users, products and sales. This project models the logic that reads and
changes those collections, with storage treated as plain sequences.

- `wrappers.dfy` (`Wrappers`): `Option` and `Result`.
- `records.dfy` (`Records`): the `User`, `Product` and `Sale` records, the
  first-match product lookup by id, and a generic order-keeping filter.
- `dashboard.dfy` (`Dashboard`): total revenue, order, product and low-stock
  counts, the low-stock alert list, and the per-day revenue series of the
  sales chart.
- `ranking.dfy` (`Ranking`): the name-keyed quantity tally (the `forEach` that
  fills the `productSales` dictionary, as a method with a loop and as the
  function that specifies it), the stable sort by quantity, and the top-N
  ranking.
- `reports.dfy` (`Reports`): the period switch of the reports page and the
  summary cards, including the top product or `"None"`.
- `sale_recorder.dfy` (`SaleRecorder`): the sale transaction as a function
  over the two collections it touches, with its error cases.
- `csv.dfy` (`Csv`): field quoting, row and file building for the export, and
  a reader for that format. The reader is proved to give back what the writer
  wrote.
- `accounts.dfy` (`Accounts`): the password strength meter (a step-by-step
  method and its specification), log-in, and sign-up.
- `catalog.dfy` (`Catalog`): discount clamping, the add record, edit-save and
  delete.
- `inventory.dfy` (`Inventory`): the class `Store`. It holds the three
  collections as `seq` fields. Its methods are the event handlers'
  read-modify-write steps, and each is proved against the functions above.

Prices and discounts are `real`, so there is no floating-point rounding.
Ids, stock and quantities are `int`. The clock is a parameter of the
functions that need it: new ids (`Date.now()`), today's date, the seven
chart days, and the week and month windows. So is the email pattern test,
and so is the two-decimal money rendering used in the export.

In these details the model follows the code:

- The export header reads `Date,Product,Quantity,Unit Price (GHS),Total Price (GHS)`.
- The top-product card shows `"None"` whenever no sale resolves to a product.
  That covers the case where every sale is dangling, not only an empty ledger.
- The report's items-sold total counts dangling sales. The top-product
  ranking skips them.
- The recorder does not check that the quantity is positive. A quantity of 0
  records an empty sale. A negative quantity passes the stock test and raises
  the stock. The model keeps both behaviours.
- Products are found by their first matching id. A delete removes every
  product with that id.
- The CSV export always reads the whole ledger, whatever period the reports
  page shows.

## Model

| member | source | states |
|---|---|---|
| `Records.FindProduct` | script.js:703 | the result is the index of the first product with the id; `None` exactly when no product has it |
| `Records.FilterIsSubsequence` | script.js:784 | a filter keeps the kept elements in their original order |
| `Records.FilterMultiset` | script.js:661 | a filter keeps each kept element as often as it occurs and drops the rest |
| `Dashboard.RevenueAppend` | script.js:301 | `Revenue` (the `reduce` over `totalPrice`, also script.js:807) of two ledgers together is the sum of their revenues |
| `Dashboard.RevenueNonNegative` | script.js:301 | a ledger with no negative totals has non-negative revenue |
| `Dashboard.LowStockAlertCount` | script.js:533 | `LowStockAlert`, the alert panel, holds exactly the products with stock below 10, and its length is their count |
| `Dashboard.DashboardStats` | script.js:301-304 | revenue = sum of every sale's total; orders = number of sales; products = catalog size; low-stock count = number of products with stock < 10 = alert length ≤ catalog size; revenue ≥ 0 when no sale total is negative |
| `Dashboard.SalesOnRevenue` | script.js:348-349 | filtering a day then summing equals the reference sum over sales dated that day |
| `Dashboard.SalesOn` | script.js:348 | the sales of one chart day are exactly the sales whose date string equals that day, and no more than the ledger holds |
| `Dashboard.DayTotals` | script.js:347-350 | one entry per input day, each the sum of `totalPrice` over the sales whose date string equals that day |
| `Dashboard.DayTotalsZero` | script.js:347-350 | a day on which nothing was sold shows 0 |
| `Dashboard.DayTotalsPartition` | script.js:347-350 | over distinct days, the series adds up to the revenue of the sales dated inside the window |
| `Dashboard.DayTotalsCoverRevenue` | script.js:347-350 | when every sale falls inside the window, the series adds up to the total revenue |
| `Ranking.NameIndex` | script.js:442 | the dictionary lookup finds an entry with that key, or reports that none exists |
| `Ranking.BumpSpec` | script.js:442 | read back with `Lookup` (the dictionary read that defaults to 0), the write `Bump` adds the quantity under its key and changes no other key; keys stay distinct |
| `Ranking.TallyDistinct` | script.js:438-444 | the tally has one entry per product name |
| `Ranking.TallyQuantities` | script.js:438-444 | in `Tally`, the dictionary after the `forEach` (also script.js:811-817), each name's entry is the summed quantity of the sales resolving to a product of that name; dangling sales add nothing |
| `Ranking.TallyKey` | script.js:438-444 | a name is a key of the tally exactly when some sale resolves to a product with that name |
| `Ranking.CountSalesByName` | script.js:438-444 | the loop builds the tally, with distinct keys and each key's reference quantity |
| `Ranking.Insert` | script.js:446-447 | inserting adds exactly one element (multiset) |
| `Ranking.InsertKeepsOrder` | script.js:446-447 | inserting into a list sorted largest-first keeps it sorted |
| `Ranking.SortByQuantity` | script.js:446-447 | the sort is a permutation of the tally, ordered non-increasing by quantity |
| `Ranking.TopProductsSpec` | script.js:438-448 | `TopProducts`, the sorted tally cut to n: n entries, or the whole tally when it has fewer, all taken from the tally, non-increasing, each with its name's summed quantity, and no left-out entry sold more than a kept one |
| `Ranking.ChartTopProducts` | script.js:436-448 | the chart series: five entries or the whole tally when fewer, all from the tally, largest first, each with its name's summed quantity, and no left-out name sold more than a shown one |
| `Ranking.TopProductsExample` | script.js:438-448 | the three-sale example ranks B (5) before A (4) |
| `Reports.ReportSales` | script.js:782-800 | the period switch: "today", "week" and "month" keep exactly the sales whose date passes that period's test; any other period keeps the ledger unchanged; never more sales than the ledger |
| `Reports.ReportToday` | script.js:783-784 | "today" keeps exactly the sales dated today, with their multiplicities, in ledger order |
| `Reports.ReportAll` | script.js:796-798 | "all" and any unnamed period return the ledger unchanged |
| `Reports.ReportSummary` | script.js:806-824 | the revenue card is the sum of all totals and the items card the sum of all quantities, dangling sales included; "None" when no sale resolves |
| `Reports.TallyEmpty` | script.js:811-817 | the tally is empty exactly when no sale resolves |
| `Reports.ReportTopProduct` | script.js:811-824 | "None" when no sale resolves; otherwise the first ranked entry, a sold name, whose quantity no other sold name exceeds |
| `SaleRecorder.EffectiveUnitPriceBounds` | script.js:716-717 | `EffectiveUnitPrice`, the list price less `AppliedDiscount` percent (the discount when positive, else none): a 0..100 discount on a non-negative price gives a unit price between 0 and the list price; no discount leaves the price unchanged |
| `SaleRecorder.RecordSale` | script.js:697-737 | each error case exactly when its condition holds, and then nothing changes; on success only the chosen product changes, its stock drops by the quantity and stays ≥ 0, the order of products is kept, one sale with the discounted unit price and unit × quantity total is appended |
| `SaleRecorder.RecordSaleKeepsStock` | script.js:710-730 | if no stock is negative before, none is negative after |
| `SaleRecorder.RecordSaleConservation` | script.js:724-737 | a recorded sale removes exactly its quantity from total stock and adds exactly its total to revenue and one order; a refusal changes neither |
| `SaleRecorder.RecordSaleExample` | script.js:716-730 | stock 5, price 100, discount 10, quantity 2 gives unit 90, total 180, stock 3 |
| `Csv.EscapeCounts` | script.js:860 | `Escape` (the `replace` of `"` by `""`) doubles the number of double quotes |
| `Csv.UnescapeEscape` | script.js:860 | un-doubling an escaped value gives the value back |
| `Csv.QuoteFieldShape` | script.js:860 | `QuoteField`, the `quote` helper: a quoted field starts and ends with `"`, has an even number of `"` inside, and un-doubling the inside gives the value |
| `Csv.ParseRecordLine` | script.js:870 | reading a row written by `Line` (`JoinFields` joins the quoted fields with commas) gives back its fields and leaves the rest of the text |
| `Csv.ParseRecordsLines` | script.js:862-872 | reading written rows gives back the rows |
| `Csv.NatToString` | script.js:867 | the text of a non-negative quantity is non-empty and made of decimal digits |
| `Csv.IntToString` | script.js:867 | the quantity text is non-empty, starts with `-` exactly for a negative quantity, and is decimal digits otherwise |
| `Csv.ParseIntToString` | script.js:867 | the quantity text reads back as the quantity |
| `Csv.RowFields` | script.js:865-870 | a row's five fields are the sale's date, the product's name, a quantity text that reads back as the quantity, and the rendered unit and total prices |
| `Csv.ExportRows` | script.js:862-872 | every row has five fields |
| `Csv.ExportRowsSpec` | script.js:862-872 | one row per sale whose product resolves, in ledger order, each carrying that sale's date, product name, quantity and prices |
| `Csv.ExportRoundTrip` | script.js:858-875 | reading the exported file (mark, header, rows) gives back exactly the rows |
| `Csv.ExportCsv` | script.js:858-875 | the exported text starts with the byte-order mark followed by the header line |
| `Accounts.StrengthScoreSpec` | script.js:943-954 | `StrengthScore`, the meter's score: in 0..4, 0 exactly for the empty password, 4 when all five criteria hold |
| `Accounts.CalculatePasswordStrength` | script.js:943-954 | the step-by-step score equals the capped criteria count, and the label is `labels[score]` |
| `Accounts.FindUser` | script.js:139 | the first user whose username and password both match exactly; none exactly when no user matches |
| `Accounts.MissingLoginFields` | script.js:128-136 | a log-in field is flagged exactly when it is empty, and none is flagged exactly when both are filled |
| `Accounts.Login` | script.js:128-139 | succeeds exactly when both fields are non-empty and some user matches both, returning the first stored user that matches, as `find` does; missing fields reported exactly when a field is empty |
| `Accounts.SignupProblems` | script.js:169-188 | the username is flagged exactly when shorter than 3, the email exactly when its pattern test fails, the password exactly when it scores below 2, the confirmation exactly when it differs |
| `Accounts.Signup` | script.js:170-206 | succeeds exactly when no field is flagged and the username is free, appending exactly one user; a taken username fails with the duplicate error |
| `Accounts.SignupKeepsUnique` | script.js:192-205 | if stored usernames are pairwise distinct, they stay distinct after a successful sign-up |
| `Accounts.SignupThenLogin` | script.js:139-205 | after a successful sign-up, logging in with the same credentials returns the new user |
| `Catalog.ClampDiscount` | script.js:644 | the stored discount lies in 0..100 and equals the input when the input is in range |
| `Catalog.NewProduct` | script.js:588-602 | the new record has the given id, name, price, category and stock, and the clamped discount, which lies in 0..100 |
| `Catalog.EditProduct` | script.js:647-649 | nothing saved exactly when no product has the id; otherwise the first match gets the new fields and keeps its id, and all other products are unchanged |
| `Catalog.DeleteProduct` | script.js:661 | the remaining products are exactly those of the catalog whose id differs, and none is added |
| `Catalog.DeleteProductSpec` | script.js:661 | no product with the id remains, every other product stays as often as before, in order |
| `Inventory.Store.constructor` | script.js:18-26 | empty storage reads as three empty collections |
| `Inventory.Store.RecordSale` | script.js:690-746 | the new collections are those of the sale transaction; a refusal changes nothing; a success appends one sale; users untouched |
| `Inventory.Store.Signup` | script.js:160-206 | the users become those of the sign-up rule (one appended on success, unchanged on failure); products and sales untouched |
| `Inventory.Store.AddProduct` | script.js:586-606 | one clamped product appended, nothing else changes |
| `Inventory.Store.EditProduct` | script.js:637-650 | products become the edit result, or stay unchanged when no id matches |
| `Inventory.Store.DeleteProduct` | script.js:658-662 | products become the delete result |
| `Inventory.Store.ClearProducts` | script.js:1030-1031 | products become empty, nothing else changes |
| `Inventory.Store.ClearSales` | script.js:1038-1039 | sales become empty, nothing else changes |
| `Inventory.Store.ClearAll` | script.js:1048-1049 | all three collections become empty |

## Left out

- DOM rendering, event wiring, alerts, timers, theme handling and the PIN modal. These are UI glue; the clear actions are modelled without their PIN gate.
- Chart construction, retry and destroy. Only the data handed to the charts is modelled.
- Storage itself and JSON parsing. The collections are `seq` fields.
- The session-persistence choice on log-in (durable or per-session storage) and the log-out step. They are storage I/O.
- `Date.now()`, `new Date()`, `getLast7Days`, `formatDate`, and the week and month windows. Ids, today's date, the day list and the two window tests are parameters.
- `getLast7Days` steps the date in local time but prints it in UTC. When the seven days span a change of UTC offset (a daylight-saving switch) and the local time lies within that shift of UTC midnight, one date can appear twice and another not at all; this can happen on either side of UTC. `Dashboard.DayTotalsPartition` therefore states its sum only for a list of distinct days.
- The recent-sales lists sorted by parsed date. The comparison needs calendar dates.
- The report table. It is DOM output of the period-filtered sales whose product resolves, with display date and currency formatting.
- Floating-point prices and `toFixed(2)`. Prices are exact reals, and the money text is a parameter of the export.
- `parseInt`/`parseFloat` returning `NaN`. Form values arrive already parsed; a missing product selection is `None`.
- `String.prototype.trim` on the username and email. Callers pass trimmed strings.
- Accounts.Signup: the email pattern test is a boolean parameter, because regular-expression matching is not modelled.
- Accounts.StrengthScoreSpec, Accounts.CalculatePasswordStrength and the weak-password flag of Accounts.Signup: the password length is counted in Unicode scalar values, while the source counts UTF-16 code units. The two differ on characters outside the basic plane: four emoji score 1 here and 2 in the source.
- Accounts.Signup: the three-character username minimum counts Unicode scalar values, not UTF-16 code units, so a username such as one emoji plus one letter is flagged here but accepted by the source.
- Ranking.TopProductsSpec: the tally keeps keys in insertion order. The source's object keys put integer-like names first, so tie order among equal quantities can differ. Beyond that key order and the stable sort, the code fixes no order among ties.
- Csv.ExportRoundTrip: the byte-order mark is modelled as the first character of the text, not as a separate part of the download blob. The `sales_report_<date>.csv` file name is left out.
- Ranking.TallyQuantities: the tally is a true dictionary. The source's plain object inherits the keys of `Object.prototype`. For a product named `constructor` or `toString`, the first read yields a function, and the stored value becomes a string. A product named `__proto__` is never stored. The model counts such names like any other.
- Ranking.TallyKey: a product named `__proto__` becomes a key here, while the source never stores it.
- Ranking.CountSalesByName: the same inherited-key behaviour of `Object.prototype` is not modelled.
- Ranking.ChartTopProducts: the same inherited-key behaviour of `Object.prototype` is not modelled.
- Reports.ReportTopProduct: when the only resolving sales are of a product named `__proto__`, the source shows "None" and the model shows that name. Names inherited from `Object.prototype` are not modelled.
- Reports.TallyEmpty: if the only resolving sales are of a product named `__proto__`, the source's dictionary is empty while the model's tally is not. The same inherited-key difference holds for every member built on `Ranking.Tally`.
- Reports.ReportSummary: its top-product card inherits the same `__proto__` difference as `Reports.ReportTopProduct`.
- Integer width: ids, stock and quantities are unbounded `int` here. In the source they are JavaScript numbers, exact only up to 2^53.
- SaleRecorder.RecordSale: the stock decrement and the `unit × quantity` total are exact. In the source they round once values pass 2^53.
- Csv.IntToString: it writes every digit. The source's `String(qty)` switches to exponent form from 10^21, so it writes `1e+21` where the model writes 22 digits.
