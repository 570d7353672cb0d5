# InvenTrack stock ledger — a Dafny model

InvenTrack is a Laravel inventory application. Products belong to categories and carry a stock level. Stock moves through recorded transactions of type `in` or `out`, and every write appends an entry to an activity log. This project models the application's controllers:

- **The stock ledger** (`TransactionController`). `store` validates a movement and refuses a stock-out larger than the stock. Otherwise it inserts the transaction, moves the product's stock and appends one `create` log entry, as one unit. `destroy` reverses the movement's effect on the stock, appends a `delete` entry and removes the transaction. `index` filters the list by type, by an inclusive date range and by product.
- **The catalogue** (`ProductController`, `CategoryController`). Each of create, update and delete validates its form and writes exactly one log entry. Category names are unique, except that an update may keep its own name. A product update overwrites the stock directly. The product list filters by name, by category and by a stock tier (out = 0, low = 1..10, available > 10). The category list shows each category's product count.
- **The read side** (`ReportController`, `DashboardController`). The report has a filtered list, the in/out/count summary of `index`, the summary of `export` and the ten newest activity entries. The dashboard shows its counters, the five newest transactions, the five products lowest in stock and per-month in/out totals.

## How it is built

- `Records` holds the rows, the database value `Db` and its well-formedness `Wf`. In `Wf`, ids are strictly ascending in each table and below that table's next auto-increment id.
- Each write action is a function from the database before to its result and the database after (`Transactions.Store`, `Products.Update`, …). Its contract states the full new state, every error case, and the invariant it keeps.
- `Inventory.Database` is a class whose fields are the four tables and the id counters. Its methods perform the same writes step by step, in the source's order: lookup by primary key, insert, stock change, log append, delete. Each method is proved to give the same result and state as the action's function.
- A query builder is a sequence of `where` clauses applied one after another (`Query.Run`). It is proved to keep exactly the rows that satisfy every clause.
- `latest()` and `orderBy` are a sort by a key (`Selection.SortBy`). `take(n)` is `Selection.TopBy` and `paginate(n)` is `Selection.Page`.
- Request values are options. `filled` means present and not empty. `when` means filled and not `"0"`, which is PHP truthiness on a string.

Files:
- `wrappers.dfy`: `Option` and `Result`.
- `records.dfy`: rows, the database value, ids, decimal text.
- `query.dfy`: the `where` chain.
- `selection.dfy`: sorting, `take` and `paginate`.
- `transactions.dfy`, `products.dfy`, `categories.dfy`, `reports.dfy`, `dashboard.dfy`: one module per controller.
- `inventory.dfy`: the mutable database.

## Model

| member | source | states |
|---|---|---|
| Records.ParseType | app/Http/Controllers/TransactionController.php:70 | `in:in,out` accepts exactly the two type names, each mapped to its movement kind |
| Records.DecimalRoundTrip | app/Http/Controllers/TransactionController.php:104 | the quantity interpolated into the log description is non-empty decimal digits that read back as the quantity |
| Records.IndexOf | app/Http/Controllers/TransactionController.php:75 | a primary-key lookup finds a row carrying the key, or reports that no row carries it |
| Records.RemoveAt | app/Http/Controllers/TransactionController.php:148 | `delete()` drops exactly the one row and keeps the others in order |
| Query.Run | app/Http/Controllers/TransactionController.php:21-37 | a query built by appending `where` clauses keeps exactly the rows of the table that satisfy every clause, each at most as often as the table has it (a sub-multiset of the table) |
| Query.RunIsWhereAll | app/Http/Controllers/ProductController.php:21-42 | applying the clauses one after another equals filtering once by all of them |
| Selection.SortBy | app/Http/Controllers/TransactionController.php:41 | `latest()`/`orderBy`: the result is sorted by the key and is a permutation of the input |
| Selection.TopBy | app/Http/Controllers/DashboardController.php:31-35 | `orderBy(key)->take(n)`: min(n, size) rows in key order, drawn from the input, and no row left out has a smaller key than the last row taken |
| Selection.Page | app/Http/Controllers/TransactionController.php:41 | `paginate(n)`: at most n rows, a contiguous run of the ordered rows starting at the page's offset, full when enough rows follow |
| Transactions.StoreErrors | app/Http/Controllers/TransactionController.php:68-73 | product_id fails iff missing or not an existing product, type iff not `in`/`out`, quantity iff missing or below 1; all failures are reported together |
| Transactions.Store | app/Http/Controllers/TransactionController.php:66-110 | succeeds iff the request is valid and the stock covers an `out`. Invalid: the failing keys. Short stock: an error carrying the available stock. Any failure leaves the database unchanged. Success: exactly one transaction is added with the user's id, only that product's stock moves by ±quantity, one `create`/`Transaction` entry is appended with the new id and the `Stok Masuk`/`Stok Keluar` description, and a non-negative stock stays non-negative |
| Transactions.Destroy | app/Http/Controllers/TransactionController.php:127-153 | an unknown id is not found. A transaction whose product is gone fails, and the unit rolls back unchanged. Otherwise the product's stock is reversed with no stock check, one `delete` entry is appended and the transaction is removed, so its id is then absent |
| Transactions.Reversed | app/Http/Controllers/TransactionController.php:133-137 | reversing a movement is the exact inverse of applying it |
| Transactions.StoreThenDestroy | app/Http/Controllers/TransactionController.php:92-96 | `store` followed by `destroy` of the new transaction restores the product and transaction tables exactly and leaves the log two entries longer with its old prefix intact |
| Transactions.StoreKeepsBalance | app/Http/Controllers/TransactionController.php:92-96 | a product's stock minus the net of its recorded movements is the same before and after any `store` |
| Transactions.DestroyKeepsBalance | app/Http/Controllers/TransactionController.php:133-137 | the same balance is unchanged by any `destroy` |
| Transactions.NetAppend | app/Http/Controllers/TransactionController.php:92-96 | the net movement of two runs of transactions is the sum of their nets |
| Transactions.StoreAllStock | tests/Feature/Feature/TransactionTest.php:140-160 | after any run of `store` calls, a product's stock is its initial stock plus the in-quantities minus the out-quantities recorded for it during the run |
| Transactions.StoreAll | tests/Feature/Feature/TransactionTest.php:140-160 | a run of `store` calls keeps the database well-formed |
| Transactions.IndexQueryMeaning | app/Http/Controllers/TransactionController.php:21-37 | a transaction passes the list's query iff its type equals the filled type filter, its day is within the inclusive date range, and its product is the filtered product |
| Transactions.Index | app/Http/Controllers/TransactionController.php:41 | a page holds at most 10 rows, each a transaction of the table that passes the filter |
| Products.FormErrors | app/Http/Controllers/ProductController.php:71-78 | category_id fails iff missing or unknown, name iff missing or over 255 characters, stock iff missing or negative, price iff missing or negative |
| Products.Store | app/Http/Controllers/ProductController.php:69-96 | succeeds iff the form is valid, and a failure changes nothing. Success adds exactly one product under the next id, which did not exist before, and one `create`/`Product` entry naming it |
| Products.Update | app/Http/Controllers/ProductController.php:126-157 | an unknown id is not found and an invalid form fails, both changing nothing. Success overwrites every column from the form, keeps the id and creation time, sets the stock to the submitted value and appends one `update` entry with the new name |
| Products.Destroy | app/Http/Controllers/ProductController.php:162-183 | succeeds iff the product exists. It appends one `delete` entry naming the product, then removes the product, whose id is then absent |
| Products.UpdateShiftsBalance | app/Http/Controllers/ProductController.php:145 | an update moves the product's ledger balance by the submitted stock minus the old stock and leaves every other product's balance alone |
| Products.OverwriteThenReverseGoesNegative | app/Http/Controllers/ProductController.php:145 | 5 units in, stock set to 0 through the form, then deleting the receipt: the stock becomes -5 |
| Products.TierClausesMeaning | app/Http/Controllers/ProductController.php:34-42 | the `low` clauses keep exactly stock 1..10, `out` exactly stock 0, `available` exactly stock above 10 |
| Products.TiersPartition | app/Http/Controllers/ProductController.php:34-42 | for a non-negative stock exactly one of the three stock filters keeps the product |
| Products.IndexQueryMeaning | app/Http/Controllers/ProductController.php:21-42 | a product passes iff its name contains the filled search term, its category is the filtered one, and it is in the filtered stock tier; an empty or unrecognised tier filters nothing |
| Products.Index | app/Http/Controllers/ProductController.php:44 | a page holds at most 10 rows, each a product of the table that passes the filter |
| Categories.FormErrors | app/Http/Controllers/CategoryController.php:41-44 | the name is accepted iff present, at most 255 characters, and held by no category other than the one being updated |
| Categories.KeepOwnName | app/Http/Controllers/CategoryController.php:75-78 | with distinct names, a category may be updated keeping its own name |
| Categories.Store | app/Http/Controllers/CategoryController.php:39-59 | succeeds iff the name is accepted, and a failure changes nothing. Success adds exactly one category and one `create`/`Category` entry, and keeps category names pairwise distinct |
| Categories.Update | app/Http/Controllers/CategoryController.php:73-93 | an unknown id is not found and a rejected name fails, both changing nothing. Success overwrites name and description, appends one `update` entry and keeps names pairwise distinct |
| Categories.RenameKeepsNamesDistinct | app/Http/Controllers/CategoryController.php:76 | renaming to a name no other category holds keeps the names distinct |
| Categories.Destroy | app/Http/Controllers/CategoryController.php:97-113 | succeeds iff the category exists. It appends one `delete` entry naming the category, then removes the category, whose id is then absent |
| Categories.ProductsCountIsFilteredList | app/Http/Controllers/CategoryController.php:19 | `products_count` equals the number of products the product list shows when filtered by that category |
| Categories.Index | app/Http/Controllers/CategoryController.php:19-21 | a page holds at most 10 categories of the table, each paired with its product count |
| Reports.ListQueryMeaning | app/Http/Controllers/ReportController.php:24-34 | a transaction passes the report filter iff its day is within the inclusive date range and its type equals the filled type filter |
| Reports.Filtered | app/Http/Controllers/ReportController.php:78-88 | the report list holds exactly the transactions that pass the report filter, as a sub-multiset of the table (no row repeated) |
| Reports.InOutSplit | app/Http/Controllers/ReportController.php:91-92 | the `in` total plus the `out` total of a list is the total quantity of the list, since every type is `in` or `out` |
| Reports.OfTypeSums | app/Http/Controllers/ReportController.php:91-92 | `where('type', 'in')->sum('quantity')` is the sum of the `in` quantities (each `out` row adds 0), and likewise for `out` |
| Reports.ExportSummary | app/Http/Controllers/ReportController.php:88-94 | `count` is the length of the exported list, `total_in` is the sum of its `in` quantities and `total_out` the sum of its `out` quantities, `total_in + total_out` is its total quantity, and a type filter of `out` (`in`) makes `total_in` (`total_out`) zero |
| Reports.IndexSummary | app/Http/Controllers/ReportController.php:39-55 | `total_in` (`total_out`) is the sum of the `in` (`out`) quantities of the transactions in the date range, ignoring the type filter; they equal the export totals of the list without the type filter. `transaction_count` is the length of the filtered list (corrected guard, see Findings) |
| Reports.IndexSummaryAsWritten | app/Http/Controllers/ReportController.php:39-55 | as written: the totals are the `in`/`out` sums over the date range; the count is the length of the list filtered by the type only when the type is truthy in PHP, and by the date range alone otherwise |
| Reports.ZeroTypeCountIgnoresFilter | app/Http/Controllers/ReportController.php:32-34 | for every table and date range, type `0` empties the filtered list while the count as written counts every transaction in the date range |
| Reports.IndexCountDisagreesWithList | app/Http/Controllers/ReportController.php:50-54 | as written, with type `0` one `in` transaction is counted while the filtered list is empty |
| Reports.IndexSummaryAgreesOffZero | app/Http/Controllers/ReportController.php:50-54 | for every type filter other than `0` the summary as written equals the corrected one |
| Reports.Index | app/Http/Controllers/ReportController.php:36 | a page holds at most 15 rows, each a transaction that passes the report filter |
| Reports.ActivityLogs | app/Http/Controllers/ReportController.php:58-61 | min(10, size) log entries drawn from the log as a sub-multiset (no row repeated beyond its occurrences), newest first, and none left out is newer than the last shown |
| Dashboard.LowStock | app/Http/Controllers/DashboardController.php:21 | keeps exactly the products with stock at most 10, as a sub-multiset of the table (no row repeated) |
| Dashboard.CountStats | app/Http/Controllers/DashboardController.php:19-22 | the counters are the sizes of the product, category and transaction tables and the number of products with stock at most 10 |
| Dashboard.LowStockCount | app/Http/Controllers/DashboardController.php:21 | the low-stock counter equals what the product list shows under `low` plus what it shows under `out`, plus the products with negative stock |
| Dashboard.LowStockItems | app/Http/Controllers/DashboardController.php:31-35 | at most 5 products, a sub-multiset of the low-stock products, each with stock at most 10, in ascending stock order; no low-stock product left out has less stock than the last shown |
| Dashboard.RecentTransactions | app/Http/Controllers/DashboardController.php:25-28 | min(5, size) transactions, a sub-multiset of the table, newest first, and none left out is newer than the last shown |
| Dashboard.AddTo | app/Http/Controllers/DashboardController.php:38-46 | adding one transaction's quantities to its month keeps the rows ordered and changes only that month's totals |
| Dashboard.Group | app/Http/Controllers/DashboardController.php:38-46 | the grouping has one row per month of the window, in ascending order, and gives every month the sum of its `in` and `out` quantities |
| Dashboard.MonthlySummary | app/Http/Controllers/DashboardController.php:38-46 | rows are in strictly ascending month order, there is a row for a month iff some transaction since the window start falls in it, and each row's `total_in`/`total_out` are that month's sums of `in`/`out` quantities |
| Dashboard.WindowMonthsMeaning | app/Http/Controllers/DashboardController.php:43-44 | a month is grouped iff a transaction created since the window start falls in it |
| Inventory.Find | app/Http/Controllers/TransactionController.php:75 | the scan returns the same row index as the primary-key lookup |
| Inventory.Database.constructor | tests/Feature/Feature/TransactionTest.php:14 | a new database has empty tables, every id sequence at 1, and is well-formed |
| Inventory.Database.AppendLog | app/Http/Controllers/TransactionController.php:99-105 | appends exactly one entry under the next log id and changes nothing else |
| Inventory.Database.StoreTransaction | app/Http/Controllers/TransactionController.php:66-110 | performs the writes step by step and ends with the result and state of `Transactions.Store`, still well-formed |
| Inventory.Database.DestroyTransaction | app/Http/Controllers/TransactionController.php:127-153 | ends with the result and state of `Transactions.Destroy` |
| Inventory.Database.StoreProduct | app/Http/Controllers/ProductController.php:69-96 | ends with the result and state of `Products.Store` |
| Inventory.Database.UpdateProduct | app/Http/Controllers/ProductController.php:126-157 | ends with the result and state of `Products.Update` |
| Inventory.Database.DestroyProduct | app/Http/Controllers/ProductController.php:162-183 | ends with the result and state of `Products.Destroy` |
| Inventory.Database.StoreCategory | app/Http/Controllers/CategoryController.php:39-59 | ends with the result and state of `Categories.Store` |
| Inventory.Database.UpdateCategory | app/Http/Controllers/CategoryController.php:73-93 | ends with the result and state of `Categories.Update` |
| Inventory.Database.DestroyCategory | app/Http/Controllers/CategoryController.php:97-113 | ends with the result and state of `Categories.Destroy` |

## Left out

- Rendering is not modelled: Inertia pages, PDF generation (ReportController.php:96-109, including the product list loaded only for the PDF), redirects and flash messages.
- Image upload and deletion are file-system work (ProductController.php:80-82, 137-143, 167-169). Products carry no image column.
- Authentication and sessions are left out. The acting user is a parameter id.
- Concurrency is left out. The stock check (TransactionController.php:78) runs before the database transaction opens (line 84), so two requests can race. Each write is modelled as one atomic step.
- Time is a parameter. `now` is a natural second count, `whereDate` compares the day number `created_at / 86400` (no time zones) and `updated_at` is not modelled.
- Dashboard.MonthlySummary takes the `TO_CHAR(created_at, 'YYYY-MM')` key as a parameter function whose numeric order is the text order. It takes `now()->subMonths(6)` as the parameter `since`.
- Products.IndexQueryMeaning reads `LIKE %term%` as case-sensitive substring containment. Wildcard characters inside the term are not interpreted.
- Products.FormErrors counts `max:255` in characters. `price` is a non-negative integer amount rather than a decimal.
- Request values that fail a type rule (`integer`, `string`, `numeric`) arrive as a missing value. The trim-and-null-empty-strings middleware is taken as given: an empty string counts as missing.
- Transactions.StoreErrors: a `notes` value that is present but not a string fails `nullable|string` in the source with an error on `notes`. The model reads every non-string as missing and so never reports `notes`. The same holds for `description` in Products.FormErrors and Categories.FormErrors.
- Products.Update: a request without a `description` key keeps the old description in the source, since absent keys are not in the validated data. The model reads an absent key like `null` and clears the description.
- Categories.Update: the same for a category's `description`. An absent key clears it in the model but keeps it in the source.
- Transactions.Store: the log description interpolates the quantity as submitted. Text such as `+20` passes `integer|min:1` and is logged as `(+20 unit)`. The model writes the quantity's plain decimal form, `20`.
- Transactions.Store: stock and quantity are unbounded integers. An increment or decrement beyond the database column's range throws inside the database transaction and rolls it back. That overflow is not modelled, in Transactions.Destroy either.
- Validation error messages are not modelled. Errors carry the failing keys, and the insufficient-stock error carries the available stock.
- Transactions.Index, Products.Index, Categories.Index and Reports.Index state the page length and that each row is from the table and passes the filter. Their newest-first order and page position come from `Selection.SortBy` and `Selection.Page` and are not restated per list. Pagination links and totals are not modelled.
- Rows with equal `created_at` have no order fixed by the source's SQL. The model's sort keeps one particular order.
- Eager loading (`with(...)`) is left out. Rows refer to each other by id.
- Foreign-key constraints and cascade deletes are database configuration not visible in the controllers. Deleting a product or category removes only that row.
- The `show`, `create` and `edit` actions only render and are not modelled.
- Dashboard.Show assembles the four dashboard parts and has no contract of its own. Its parts carry the contracts.

## Findings

| source | as written | input that shows it | evidently intended | confidence | as-written member | corrected member |
|---|---|---|---|---|---|---|
| app/Http/Controllers/ReportController.php:53 | `transaction_count` adds the type filter through `when($request->type)`, i.e. only when the value is truthy in PHP, while the list (line 32) adds it when the value is `filled` | `type=0` with one `in` transaction: the list filters to type `"0"` and is empty, the count ignores the type and reports 1 | the count counts the rows the list shows | not executed | Reports.ZeroTypeCountIgnoresFilter | Reports.IndexSummary |
