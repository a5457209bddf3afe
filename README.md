# Purchase transaction engine

A Dafny model of the purchase routes of a small Express/MySQL shop backend.
A purchase belongs to a user. It has a status and a total, and it holds 1 to 5
detail lines. Each line names a product, a quantity and a unit price.
Creating a purchase reserves stock. Replacing its lines gives the old
reservation back and takes the new one. Deleting it gives the stock back. A
purchase whose status is `COMPLETED` can be neither changed nor deleted.

The model has seven modules:

- `Types`: the payload, the stored rows (`Purchase`, `Detail`) and the
  database (`Db`: product stock, purchases, details per purchase, next id),
  plus the error kinds.
- `Validation`: `validateBasic`, with JavaScript truthiness written out.
  A `user_id` of 0 and an empty `status` count as missing. `details` is
  absent, a non-array value, or an array of lines.
- `Ledger`: the stock updates `stock - q` (reserve) and `stock + q` (release).
  It also defines the sum of what the stored details reserve against a product.
- `Engine`: create, update and delete as pure transitions of the `Db`.
  An error returns only the error kind, which is how the rollback is
  modelled. The module also defines the invariants every committed state keeps.
- `EngineProperties`: the lemmas about those transitions. They cover the
  exact failure conditions, what a commit changes, preservation of the table
  invariants, conservation of stock plus reservations, non-negative stock,
  and the terminal `COMPLETED` status.
- `Store`: the route handlers as methods of a class holding the tables. They
  use the source's loops, work on local copies and assign the fields only on
  commit. Each method is proved to agree with the `Engine` function, and each
  keeps the class invariant: every product's stock plus its reservations
  equals its initial stock.
- `Query`: the list and single-purchase reads, including the in-memory
  grouping of detail rows under their purchases.

Money is in integer cents, so the limit of 3500 becomes `MaxTotal = 350000`.

The stock check compares each line with the stock as it was before any line
is reserved. With two lines for the same product, each line can pass and the
stock still goes negative; `EngineProperties.DuplicateLinesOverdraw` shows a
case. Non-negative stock is therefore proved only for lines whose products are
distinct, which is the behaviour of the code as written.

Where the code's behaviour may surprise a reader, the model follows the code:

- `validateBasic` does not look inside the lines.
- Create rejects a line with a zero (falsy) field or a non-positive quantity.
  It accepts a negative price.
- Update checks neither the line fields nor the quantities.
- Updating or deleting a `COMPLETED` purchase is a plain error, reported with
  HTTP 400.
- Update repeats the length checks after computing the total
  (`src/routes/purchases.js:112-113`). Validation already guarantees 1 to 5
  lines whenever lines are given, so those checks can never fire and are not
  modelled.

## Model

| member | source | states |
|---|---|---|
| Validation.Validate | src/helpers/validatePurchase.js:5-17 | In create mode a falsy user, then a falsy status, then a non-array `details` fail in that order. Lines given as an array must number 1 to 5, too few and too many each having their own error. In update mode, a payload without lines always passes. The result is Pass exactly when all of these rules hold. |
| Engine.GetProduct | src/routes/purchases.js:7-10 | Finds the product exactly when its row exists, and returns that row's stock. |
| Engine.FirstLineFault | src/routes/purchases.js:20-22 | No fault exactly when every line passes the per-line check. Every line then has a product id, a positive quantity and a non-zero price. A fault is the per-line error of the first failing line: every earlier line passes. |
| Engine.StockFault | src/routes/purchases.js:33-37 | No fault exactly when every line's product exists and has stock at least the line's quantity. A fault belongs to the first line that is not in stock, every earlier line being in stock. It is not-found when that line's product is missing, and insufficient stock when the product's stock is below the line's quantity. |
| Engine.Create | src/routes/purchases.js:13-68 | A commit requires a valid create payload. It takes the next id, advances the counter, adds one purchase and one detail list (with as many rows as lines), keeps the product set, and stores a total of at most 3500. EngineProperties.CreateFailsWhen and EngineProperties.CreateEffects give the full contract. |
| Engine.Update | src/routes/purchases.js:71-150 | A commit requires a valid update payload and an existing, non-completed purchase. It keeps the id counter, the purchase ids and the product set. With lines, the new total is at most 3500; without details, the total is unchanged. EngineProperties.UpdateFailsWhen and EngineProperties.UpdateEffects give the full contract. |
| Engine.Delete | src/routes/purchases.js:153-185 | Fails exactly when the purchase is missing or COMPLETED. A commit removes the purchase and its details and keeps the counter and the product set. EngineProperties.DeleteFailsWhen and EngineProperties.DeleteEffects give the rest. |
| Ledger.Reserve | src/routes/purchases.js:54 | Keeps the product set: a detail whose product has no row adds nothing, as an UPDATE matching no row changes nothing. Release is its inverse, by Ledger.ReleaseUndoesReserve. Store.ReserveLines proves the decrement loop equal to it. |
| Ledger.Release | src/routes/purchases.js:91-93 | Keeps the product set. Reserve is its inverse, by Ledger.ReleaseUndoesReserve. Store.ReleaseDetails proves the increment loop equal to it. |
| Ledger.ReleaseUndoesReserve | src/routes/purchases.js:54 | Releasing what was reserved restores the stock exactly, and reserving what was released does too. |
| EngineProperties.CreateFailsWhen | src/routes/purchases.js:13-68 | Create fails exactly when validation fails, when a line has a missing field or a non-positive quantity, when the total exceeds 3500, or when some line's product is missing or short of stock. |
| EngineProperties.CreateErrorOrder | src/routes/purchases.js:16-36 | Create reports the first failing check. The order is the validation error, then the first bad line's error (lines 21-22), then the exceeded total (line 26), then the first missing or short product (lines 35-36). |
| EngineProperties.CreateEffects | src/routes/purchases.js:39-55 | A committed create adds exactly one purchase, under the next id, with the payload's user, status and the lines' total, and advances the id counter. It stores exactly one detail per line, in order, each with the line's product, quantity, price and subtotal quantity × price. Each product's stock drops by the quantities reserved against it, a product no line names is unchanged, and every other purchase and its details stay as they were. |
| EngineProperties.ToDetailsTotal | src/routes/purchases.js:19-25 | The stored subtotals sum to the purchase's total. |
| EngineProperties.ToDetailsUnreferenced | src/routes/purchases.js:47-55 | Lines that do not name a product reserve nothing against it. |
| EngineProperties.CreateKeepsConsistent | src/routes/purchases.js:39-57 | Create keeps the table invariants: ids below the counter, one detail list of 1 to 5 rows per purchase, subtotals that sum to a total of at most 3500, and every detail naming an existing product. |
| EngineProperties.CreateConserves | src/routes/purchases.js:46-55 | For every product, stock plus reservations is the same after a create. |
| EngineProperties.CreateKeepsSound | src/routes/purchases.js:32-55 | With distinct products, create keeps every stock non-negative and every stored quantity positive. |
| EngineProperties.UpdateEffects | src/routes/purchases.js:71-150 | A committed update acts on an existing, non-completed purchase, and no other purchase or its details change. A null or omitted user or status keeps the stored one. Without lines, the stock, the details and the total stay as they were. With lines, the details become the new lines, the total is their sum, and the stock is the old reservation released, then the new one reserved. |
| EngineProperties.UpdateFailsWhen | src/routes/purchases.js:75-113 | An invalid payload fails with its validation error first. A missing purchase is then refused as not found (line 82) and a COMPLETED one as completed (line 83). After those, non-iterable details fail as not iterable. Next comes the first missing or short product against the released stock, then the exceeded total. Overall, update fails exactly when one of these holds. |
| EngineProperties.UpdateKeepsConsistent | src/routes/purchases.js:103-137 | Update keeps the table invariants. |
| EngineProperties.UpdateConserves | src/routes/purchases.js:88-137 | For every product, stock plus reservations is the same after an update. |
| EngineProperties.UpdateKeepsSound | src/routes/purchases.js:88-137 | If the new lines have distinct products and positive quantities, update keeps stock non-negative and stored quantities positive. |
| EngineProperties.ResubmitKeepsStock | src/routes/purchases.js:87-100 | When no stock is negative and every stored quantity is positive, re-submitting a purchase's own lines passes the stock check, because the current reservation is released first. The update then commits, and every stock ends where it was. |
| EngineProperties.DeleteEffects | src/routes/purchases.js:153-185 | A committed delete acts on an existing, non-completed purchase. It removes that purchase and its details, nothing else, and gives each product back exactly the quantity its details reserved. |
| EngineProperties.DeleteFailsWhen | src/routes/purchases.js:158-161 | A missing purchase is refused as not found and a COMPLETED one as completed, and delete fails in no other case. |
| EngineProperties.DeleteKeepsConsistent | src/routes/purchases.js:165-172 | Delete keeps the table invariants. |
| EngineProperties.DeleteConserves | src/routes/purchases.js:165-172 | For every product, stock plus reservations is the same after a delete. |
| EngineProperties.DeleteKeepsSound | src/routes/purchases.js:165-172 | Delete keeps stock non-negative and stored quantities positive. |
| EngineProperties.CreateThenDelete | src/routes/purchases.js:13-185 | Deleting a purchase just created restores the previous tables, except that the id counter has advanced. This fails only when the purchase was created as COMPLETED. |
| EngineProperties.CompletedIsTerminal | src/routes/purchases.js:83 | A COMPLETED purchase refuses every validating update and every delete. Operations on other purchases leave it and its details as they are. |
| EngineProperties.CreateDeleteScenario | src/routes/purchases.js:13-185 | Stock 10 with a purchase of 3 at 5.00 gives a total of 15.00 and stock 7. Deleting it brings the stock back to 10. |
| EngineProperties.DuplicateLinesOverdraw | src/routes/purchases.js:33-55 | Two lines of 6 against a stock of 10 both pass the check and leave stock -2. |
| Store.PurchaseStore.Create | src/routes/purchases.js:13-68 | Returns the new id and commits exactly the create transition, or returns the error and changes nothing. It keeps stock plus reservations equal to the initial stock. |
| Store.PurchaseStore.Update | src/routes/purchases.js:71-150 | Commits exactly the update transition, or returns the error and changes nothing. It keeps stock plus reservations equal to the initial stock. |
| Store.PurchaseStore.Delete | src/routes/purchases.js:153-185 | Commits exactly the delete transition, or returns the error and changes nothing. It keeps stock plus reservations equal to the initial stock. |
| Store.PriceLines | src/routes/purchases.js:19-25 | The loop reports the first line fault. When there is none, it returns the sum of quantity × price. |
| Store.SumSubtotals | src/routes/purchases.js:104-110 | The loop returns the sum of quantity × price over the lines. |
| Store.CheckStock | src/routes/purchases.js:33-37 | The loop reports exactly the stock fault of the lines against the given stock. |
| Store.ReserveLines | src/routes/purchases.js:47-55 | The loop builds one detail per line, in order. Each line's product is decremented by its quantity. |
| Store.ReleaseDetails | src/routes/purchases.js:166-169 | The loop increments each stored detail's product by its quantity. |
| Query.IdsDown | src/routes/purchases.js:192-197 | The ids come out strictly descending, and they are exactly the stored ids. |
| Query.PurchaseRowsComplete | src/routes/purchases.js:192-197 | Every purchase whose user exists has a row (the inner join drops only purchases without a user). |
| Query.PurchaseRowsDescending | src/routes/purchases.js:196 | The rows keep the descending order of the ids. |
| Query.DetailsOfExactly | src/routes/purchases.js:218 | A view is in the grouping under an id exactly when it is the view of some detail row with that purchase id. This is a set-level corollary of Query.DetailsOfInOrder. |
| Query.DetailsOfInOrder | src/routes/purchases.js:218 | Grouping under an id equals the views of exactly the detail rows with that purchase id, in their order and with repeats kept. The reference filter `RowsOf` keeps each row as often as it occurs in the query result when its purchase id matches, and never otherwise. |
| Query.DetailsOfJoin | src/routes/purchases.js:202-207 | One purchase's joined detail rows group wholly under its own id and not at all under any other id. |
| Query.DetailsOfRows | src/routes/purchases.js:199-218 | Grouping the whole detail query under a listed id yields exactly that purchase's joined details. |
| Query.ListRows | src/routes/purchases.js:192-199 | The list's rows are strictly descending by id, each built from its purchase and user, and cover every purchase whose user exists. |
| Query.ListIsGrouped | src/routes/purchases.js:187-279 | The list is ordered by id descending and holds exactly the purchases that the single-purchase read finds. Each entry equals what that read returns for its id, details included. |
| Query.List | src/routes/purchases.js:187-234 | Every listed purchase exists, its user exists, and it shows its stored total. Query.ListIsGrouped states the order, completeness and grouping. |
| Query.Get | src/routes/purchases.js:236-279 | Finds a purchase exactly when it and its user exist. It then shows the id, the user's name, the stored total and status, and at most as many details as are stored. Query.GetShowsDetails states which details; Query.ListIsGrouped relates it to the list. |
| Query.GetShowsDetails | src/routes/purchases.js:251-270 | In a consistent database whose product names cover the stocked products, the read shows one view per stored detail of the purchase, in order, each with its product's name, quantity, price and subtotal. |
| Query.JoinDetailsAll | src/routes/purchases.js:251-256 | When every detail's product has a name, the join keeps every detail, in order, with its product's name. |

## Left out

- HTTP status codes and error message texts: each error is reduced to its kind.
- The SQL engine, connections, transactions and concurrency: each handler runs alone. A rolled-back transaction is an `Err` that leaves the tables unchanged.
- Floating point and `toFixed(2)`: money is integer cents, and a subtotal is exactly quantity × price.
- Timestamps (`purchase_date`, `updated_at`) and detail row ids are not modelled.
- A non-array `details` is modelled as a value without a `length`. A string, which has a `length`, is not distinguished.
- A missing or falsy line field is modelled as the value 0. For create this is faithful, since both are falsy (`src/routes/purchases.js:21`).
- `Engine.Update`: update checks no line fields. A missing `quantity` or `price` makes the source's subtotal and total NaN (`src/routes/purchases.js:107-111`), and the NaN passes the 3500 check and reaches the `UPDATE purchases` statement (`src/routes/purchases.js:119-121`); what the database then does is outside the source. The model does not capture this NaN arithmetic and treats the missing value as 0, so the update commits with a subtotal of 0.
- `Query.DetailRows`: the SQL engine fixes the order of the detail query; the model returns the rows purchase after purchase. The grouping lemmas hold for this order only.
- `Query.IdsDown`: `ORDER BY p.id DESC` is modelled by counting down from the id counter, since every stored id lies below it.
- `Engine.Update`: the unreachable length checks of `src/routes/purchases.js:112-113` are not modelled.
- `EngineProperties.CreateKeepsSound`: proved only for lines with distinct products, because the source's per-line stock check lets duplicate products overdraw.
- `EngineProperties.UpdateKeepsSound`: additionally requires positive quantities, because update does not check them.
- The users and products tables are maps from id to name, passed to the read routes; creating them is not part of this model.
- `Query.Get`: the product-name map is separate from the stock table and may differ from it. The exact list of details shown (`Query.GetShowsDetails`) is proved only when its keys equal the stocked products. Otherwise a detail whose product has no name is dropped by the join.
