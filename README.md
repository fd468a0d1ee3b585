# Inventory and sales ledger — a Dafny model

This models the request handlers of a small Express service (`app.js`).
The service keeps stock quantities by name and records sales that debit
stock and add revenue. The relational store is replaced by an in-memory
`Service.Store`, which holds:

- `stocks`: the `stocks(name, amount)` table, a sequence of rows, because
  nothing makes names unique;
- `sales`: the `sales(id, name, amount, price)` table, a sequence of rows;
- `nextSaleId`: the `serial` sequence that numbers sales.

Each handler is a method of `Store` that returns a status code and a body.
A storage fault is an input: `fault: bool` for the single-statement
handlers. For the sale it is a `SaleFault` that names the statement that
throws (BEGIN, `SELECT 1`, the stock lookup, INSERT, UPDATE, COMMIT) and
the error text it throws with.

The core is `RecordSale`, the `POST /v1/sales` transaction:

- `CheckSale` runs up to the first write, in the handler's order: BEGIN,
  the name check, the probe, the lookup of the first row whose name is
  exactly the given name, existence, then sufficiency.
- `WriteSale` appends the sale, debits every stock row of that name, and
  commits.
- `RollBack` is the `catch`. It restores both tables to the snapshot taken
  at BEGIN and classifies the error message.

These facts are proved about the code as written:

- Every answer other than 201 leaves both tables exactly as they were.
- A missing amount is recorded as 1, and a missing price as null.
- After a committed sale, the checked row holds its old amount minus the
  sale amount, and that is at least 0.
- The total revenue rises by exactly `amount * price`.
- Errors are classified by their message text alone. A storage error whose
  text happens to be one of the three business messages therefore answers
  400, not 500.

Some behaviour follows the code rather than the intended design:

- "Stock not found" in a sale answers 400, not 404.
- The stock lookup takes no row lock.
- A sale amount is not required to be positive. A negative amount passes
  the sufficiency check and raises the stock: `Service.NegativeAmountRaisesStock`
  gives the input.
- The `serial` sequence is not transactional, so a sale whose UPDATE or
  COMMIT fails still uses up an id.
- The UPDATE of a sale debits every row with the given name, but only the
  first such row was checked. With duplicate names, a committed sale can
  leave another row negative: `Stocks.DuplicateNameCanGoNegative` gives the
  input. When the name is unique, the whole table stays non-negative
  (`Stocks.CheckedDebitKeepsStockNonNegative`).

`GET /v1/stocks` sorts the rows by amount and folds them into an object, so
a later row of the same name wins. Because of the sort, each name ends up
with the largest amount among its rows (`Stocks.ListAll`). This holds of
every ordering by ascending amount, so however the store orders rows with
equal amounts, the listing is the same (`Stocks.FoldOfSortedKeepsLargest`,
`Stocks.ListAllIndependentOfTies`).

Files: `wrappers.dfy` (Option), `decimal.dfy` (number to text for the delete
message), `stocks.dfy` (the stock table and its statements), `sales.dfy`
(the sales table and the total), `service.dfy` (responses, the `Store`
class with one method per handler, and three scenarios that are verified, not executed:
`WidgetScenario`, `InsufficientScenario`, `EmptyDeleteScenario`).

## Model

| member | source | states |
|---|---|---|
| Service.Store.CreateStock | app.js:36-48 | without a fault, the row `(name, amount)` is appended to the stocks and returned with 201; on a fault, 500 `{message: "ERROR"}` and the table is unchanged |
| Service.Store.ListStocks | app.js:51-68 | without a fault, 200 with a map whose keys are exactly the stock names, where each name maps to the amount of one of its rows and to no less than any of its rows; otherwise 500 |
| Service.Store.GetStock | app.js:71-86 | 404 "Stock not found" when no name equals the requested one ignoring ASCII case; otherwise 200 `{name: amount}` of the first such row, using the stored spelling; 500 on a fault |
| Service.Store.UpdateStock | app.js:89-105 | every row named exactly `name` gets the new amount, and all others stay; with no such row, 404 and the table unchanged; otherwise 200 with the updated row; 500 and unchanged on a fault |
| Service.Store.DeleteStocks | app.js:108-120 | an empty table answers 404 "No stocks to delete"; otherwise the table is emptied and the answer is 200 "Successfully deleted N stocks", with N the prior row count in decimal; 500 and unchanged on a fault |
| Service.Store.RecordSale | app.js:124-186 | 201 exactly when no statement throws and the checks (name given, stock found, first row sufficient) pass; then one sale row (next id, name, amount or 1, price or null) is appended and returned, every row of that name is debited, the checked row stays at least 0, and the total grows by amount·price; any other answer leaves both tables unchanged, and ids advance exactly when the INSERT ran |
| Service.Store.CheckSale | app.js:127-155 | one clause per outcome: a BEGIN fault gives its text; otherwise a missing or empty name gives "Name is required"; otherwise a probe or lookup fault gives its text; otherwise no row of that exact name gives "Stock not found", and a first row holding less than the amount gives "Insufficient stock"; no error exactly when no early statement throws and the checks pass |
| Service.Store.WriteSale | app.js:157-169 | a throwing INSERT leaves both tables and the id sequence as they were; otherwise the sale is appended under the next id and the sequence advances; a throwing UPDATE leaves the stocks as they were, and otherwise every row of that name is debited; reports the text of whichever statement throws |
| Service.CheckAbort | app.js:127-155 | the error before the first write is absent exactly when BEGIN, the probe and the lookup do not throw and the checks pass; without such a fault it is one of the three business messages |
| Service.SaleAbort | app.js:127-172 | the transaction commits exactly when no statement throws and the checks pass; without a fault, an abort carries one of the three business messages |
| Service.HasName | app.js:131-133 | an absent or null name fails the check, so does the empty string, and every non-empty name passes |
| Service.Quantity | app.js:136 | an absent or null amount is read as 1; a given amount is kept |
| Service.NegativeAmountRaisesStock | app.js:136-167 | five widgets in stock and a sale of -3: no check refuses it, and the debit leaves eight |
| Service.Store.RollBack | app.js:171-172 | restores both tables to the snapshot taken at BEGIN and answers the classified error |
| Service.SaleFailure | app.js:173-182 | 400 `{message}` exactly when the message is one of the three business messages; otherwise 500 `{message: "ERROR", details: message}` |
| Service.Store.GetTotalSales | app.js:189-204 | 200 with the sum of amount·price over the priced sales, which is 0 when no sale has a price; 500 on a fault |
| Stocks.FirstIndex | app.js:143-152 | the index of the first row whose name matches, with no earlier match; none exactly when no row matches |
| Stocks.UpdateWhere | app.js:164-167 | same length; each row named exactly `name` gets the new amount (set, or old minus delta), and every other row is unchanged |
| Stocks.UpdateWithoutMatchChangesNothing | app.js:93-99 | an UPDATE that matches no row leaves the table as it was |
| Stocks.CheckedDebitKeepsStockNonNegative | app.js:152-167 | when the name is unique and the first row of that name holds at least delta, debiting keeps every amount non-negative |
| Stocks.DuplicateNameCanGoNegative | app.js:143-167 | two rows named "widget" with 5 and 1: a sale of 3 passes the check on the first row and leaves the second at -2 |
| Stocks.InsertByAmountSorts | app.js:54 | inserting into a table sorted by amount keeps it sorted and adds exactly that row |
| Stocks.SortByAmountSorts | app.js:53-55 | `ORDER BY amount ASC` gives a permutation of the rows, sorted by amount |
| Stocks.FoldRows | app.js:58-61 | the fold has exactly the names of the rows as keys, and maps each name to the amount of the last row carrying it |
| Stocks.ListAll | app.js:53-61 | the listing's keys are the stock names, and each maps to the largest amount among the rows of that name, an amount that some row holds |
| Stocks.FoldOfSortedKeepsLargest | app.js:53-61 | folding any permutation of the table that is sorted by ascending amount gives one key per name, mapped to the largest amount among its rows |
| Stocks.ListAllIndependentOfTies | app.js:53-61 | every permutation sorted by ascending amount folds to the same listing, so the order of rows with equal amounts does not matter |
| Sales.SumOfProducts | app.js:191-194 | SQL `SUM(amount * price)` is null exactly when no row has a non-null price |
| Sales.SumOfProductsIsRevenue | app.js:191-198 | the SQL sum, null read as 0, equals the revenue summed row by row |
| Sales.TotalSales | app.js:194-198 | the reported total is 0 when no row has a price, and equals the revenue summed row by row |
| Sales.TotalSalesAppend | app.js:158-161 | appending a sale raises the total by exactly its amount·price, or by 0 when its price is null |
| Sales.IdsBelowAppend | app.js:158-161 | a row inserted under the next serial id keeps the ids strictly increasing and below the sequence |
| Decimal.NatToString | app.js:115 | the count is rendered as a non-empty string of decimal digits with no leading zero |
| Decimal.ParseNatToString | app.js:115 | reading the rendered count back gives the count |

## Left out

- Express routing, the `/` and `/secret` endpoints, `app.listen`, JSON body parsing and JSON serialisation of the bodies: request and response plumbing.
- The `pg` pool, its credentials, the startup `SELECT NOW()` check, `pool.connect()` and `client.release()`: connection lifecycle. A failing `pool.connect()` is outside the handler's `try`, so it is not modelled.
- The `SELECT 1` probe is modelled only as a statement that may throw.
- All `console.log` and `console.error` logging.
- Concurrency: requests are modelled one at a time. The lookup takes no row lock, so two concurrent sales of the same stock have no serialisation to model.
- A failing ROLLBACK, and storage faults other than "this statement throws with this text".
- GetStock: `ILIKE` is modelled as equality ignoring ASCII case. The `%` and `_` wildcards and non-ASCII case folding are not modelled.
- Prices are whole minor units, and totals are integers: `parseFloat` and `numeric` arithmetic are not modelled.
- JavaScript truthiness: a name fails the check only when it is absent, null or empty; other falsy values are not modelled. Amounts are integers; a non-numeric amount, which the store rejects, is only represented by a fault.
- CreateStock, UpdateStock: an absent `amount`, which the store would write as NULL, is not modelled; the amount is always an integer.
- Row order: where SQL leaves the order unspecified (`rows[0]` of a lookup, the row `RETURNING *` gives first), the model uses table order. The listing is proved the same for every order of ties in `ORDER BY amount`.
- Service.Store.ListStocks, Stocks.FoldRows: JavaScript object-key semantics are not modelled. The fold assigns `acc[stock.name]` on a plain `{}`, so a stock named `__proto__` hits the inherited setter and is missing from the real listing, while the model's listing has that key.
- Service.Store.CreateStock, Service.Store.UpdateStock, Service.Store.RecordSale: the 32-bit range of the `integer` columns is not modelled. An amount outside that range, or a debit that leaves it, makes the store throw and the handler answer 500; the model represents this only by a fault the caller chooses.
- Service.Store.CreateStock: a request without `name` inserts a NULL name and answers 201; the model's name is always a string, so this case is not modelled.
