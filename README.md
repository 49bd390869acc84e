# Inventory ledger — a Dafny model

This project models the core of a small inventory-management service (an
Express/Mongoose backend with a React front end). Products carry a price, a
stock count and a low-stock threshold. Sales and restocks go through the
transaction controller; creating or editing a product can also set the
count, with no record. The transaction controller validates a sale or a
restock, appends an immutable transaction record that snapshots the
product's price, and writes the new count back to the product. The product controller lists, creates,
updates and deletes products. The product page shows a three-way stock
badge.

The model is a single-threaded state machine. `Store.Database` holds the
product collection (a map from id to `Product`), the transaction
collection (an append-only `seq` of records), and the id generator. Its
four store methods stand for the Mongoose writes: `Commit` (a record
`save` together with the product `save`), `Insert` (`save` of a new
product), `Replace` (`findByIdAndUpdate`) and `Remove`
(`findByIdAndDelete`). Each writing controller is a method over the
database that calls these, with one atomic step per request; the two
listings, `GetProducts` and `GetTransactions`, are functions of its fields.
`Database.Valid()` is the invariant that every method keeps:

- every stored product passes the schema validators;
- no two products share a name or a SKU;
- every record passes its validators and refers to an id that was handed
  out;
- record dates never decrease;
- the ledger balance. Each product's stock equals its adjustment plus
  everything the whole ledger restocked for it, minus everything it sold.
  The adjustment is a ghost record of what creation and edits
  contributed. `Database.Insert` sets it to the count a product was
  created with. `Database.Replace` rebases it (`Rebased`) to the new count
  less the ledger's net effect whenever an update may have set the count
  directly. `Database.Commit` leaves it unchanged, so every recorded
  transaction has to move the stock by exactly its own effect.

The balance is also stated on values, by `ReplayBalances`. Over any run of
requests against one product, the final stock is the initial stock plus
the restocks minus the sales, and it is never negative.

Modules, one file each:

- `common.dfy`: `Option`, `Result` and the error kinds.
- `strings.dfy`: the `trim` setter and the string order used by `sort`.
- `sorting.dfy`: an insertion sort under a total preorder.
- `product.dfy`: `backend/models/Product.js`.
- `transaction.dfy`: `backend/models/Transaction.js`.
- `store.dfy`: the two collections and their invariant.
- `transaction_controller.dfy`: `backend/controllers/transactionController.js`.
- `product_controller.dfy`: `backend/controllers/productController.js`.
- `stock_status.dfy`: `renderStockStatus` of `frontend/src/pages/Products.jsx`.

Errors are modelled by kind, not by HTTP status and message:

| kind | when |
|---|---|
| `NotFound` | 404: missing product |
| `InvalidKind` | 400: unknown transaction type |
| `InsufficientStock` | 400: the candidate count is negative |
| `InvalidQuantity` | the record's `min: 1` validator fails on save |
| `ValidationError` | a product validator fails |
| `DuplicateKey` | Mongo error 11000 |

### Where a quantity below 1 is caught

`recordTransaction` never checks the quantity itself. It computes the
candidate count and compares it with zero first. A quantity below 1 is
caught only by the record's `min: 1` validator, when the record is saved,
which is still before the product is written. So:

- A sale of 0 or of a negative quantity fails with `InvalidQuantity`.
- A restock of a negative quantity larger than the stock fails with
  `InsufficientStock`.
- A smaller negative restock fails with `InvalidQuantity`.

`DecideErrors` and `NonPositiveQuantityRefused` state which error each
case gives, and `RecordTransaction` ensures that a failure changes
nothing.

## Model

| member | source | states |
|---|---|---|
| Strings.IsWhitespace | backend/models/Product.js:8 | the characters `trim` removes: ECMAScript's WhiteSpace and LineTerminator code points, written out (a definition; `TrimStart`, `TrimEnd` and `Trim` are stated in it) |
| Strings.TrimStart | backend/models/Product.js:8 | the result is a suffix of the input; everything removed is whitespace; the result is empty or starts with a non-whitespace character |
| Strings.TrimEnd | backend/models/Product.js:8 | the result is a prefix of the input; everything removed is whitespace; the result is empty or ends with a non-whitespace character |
| Strings.TrimmedSlice | backend/models/Product.js:8 | cutting leading whitespace and then trailing whitespace leaves a contiguous slice of the input with only whitespace around it |
| Strings.Trim | backend/models/Product.js:8 | the result is a slice of the input with only whitespace cut off either end, and is itself trimmed; it is empty exactly when the input is all whitespace |
| Strings.TrimIdentity | backend/models/Product.js:8 | trimming leaves a string unchanged exactly when it is already trimmed |
| Strings.TrimIdempotent | backend/models/Product.js:8 | trimming twice is trimming once |
| Strings.LexLe | backend/controllers/productController.js:7 | the code-point order of names that the binary collation sorts by (a definition; its order properties are the three lemmas below) |
| Strings.LexLeTotal | backend/controllers/productController.js:7 | any two names are ordered one way or the other |
| Strings.LexLeTransitive | backend/controllers/productController.js:7 | the name order is transitive |
| Strings.LexLeAntisymmetric | backend/controllers/productController.js:7 | names ordered both ways are equal |
| Sorting.BelowSubset | backend/controllers/productController.js:7 | an element that comes before every element of a sequence comes before every element of any sequence drawn from it |
| Sorting.ConsSorted | backend/controllers/productController.js:7 | putting such an element in front of a sorted sequence leaves it sorted |
| Sorting.Insert | backend/controllers/productController.js:7 | inserting into a sorted sequence keeps it sorted and adds exactly the one element |
| Sorting.Sort | backend/controllers/transactionController.js:57 | the result is sorted and is a permutation of the input |
| ProductModel.ValidProduct | backend/models/Product.js:4-42 | the schema validators on a built document: a trimmed, non-empty name, and price, stock count and threshold at least zero (a definition; `NewProduct` and `NewProductAccepts` tie it to validation) |
| ProductModel.NewProduct | backend/models/Product.js:3-47 | a missing name or price, an all-whitespace name, or a negative price, count or threshold is a ValidationError; a success is a valid product with the trimmed name, the given price and every omitted field at its default ("No description provided.", "General", 0, 10, the generated SKU, no images) |
| ProductModel.NewProductAccepts | backend/models/Product.js:3-47 | a body that meets every validator is accepted, so the validators refuse nothing else |
| ProductModel.PatchValid | backend/controllers/productController.js:47-50 | `runValidators` on an update checks only the fields the body sets: a set name is not blank, and a set price, count or threshold is at least zero (a definition; `PatchValidity` relates it to `ValidProduct`) |
| ProductModel.ApplyPatch | backend/controllers/productController.js:47-50 | every field the body sets takes the body's value, and every other field keeps its old one; a new name is trimmed |
| ProductModel.PatchValidity | backend/controllers/productController.js:47-50 | on a valid product, validating only the updated fields accepts a body exactly when the updated product is valid |
| ProductModel.EmptyPatch | backend/controllers/productController.js:47-50 | an empty update body leaves the product as it was |
| TransactionModel.KindName | backend/models/Transaction.js:9-13 | a kind is named "sale" or "restock" |
| TransactionModel.ParseKind | backend/controllers/transactionController.js:16-24 | a type is accepted exactly when it is "sale" or "restock", and then it names the kind returned |
| TransactionModel.ParseKindName | backend/models/Transaction.js:9-13 | parsing a kind's name gives back the kind |
| TransactionModel.ValidRecord | backend/models/Transaction.js:14-18 | the record validator: a quantity of at least 1 (a definition; `NonPositiveQuantityRefused` and `DecideErrors` use it) |
| TransactionModel.Restocked | backend/controllers/transactionController.js:18-21 | the total quantity the ledger restocked for one product (a definition; `TotalsAppend`, `TotalsOfAbsent` and `TotalsNonNegative` are about it) |
| TransactionModel.Sold | backend/controllers/transactionController.js:18-21 | the total quantity the ledger sold of one product (a definition; see `Restocked`) |
| TransactionModel.Delta | backend/controllers/transactionController.js:18-21 | one record's effect on a product's stock: plus the quantity for a restock, minus it for a sale, nothing for another product (a definition; `DecideMovesByDelta` ties it to the count change) |
| TransactionModel.TotalsAppend | backend/controllers/transactionController.js:38-43 | appending one record changes a product's restocked-minus-sold total by that record's effect on it, and no other product's |
| TransactionModel.DatesAscending | backend/models/Transaction.js:23-26 | consecutive records are dated in non-decreasing order (a definition; part of `Store.Consistent`, kept by `Store.AppendLatest`, and made pairwise by `DatesAscendingPairwise`) |
| TransactionModel.DatesAscendingPairwise | backend/models/Transaction.js:23-26 | in a ledger appended in date order, every record is dated no later than any record after it |
| TransactionModel.TotalsOfAbsent | backend/controllers/productController.js:31 | a product id newer than every record has nothing restocked and nothing sold |
| TransactionModel.TotalsNonNegative | backend/models/Transaction.js:14-18 | over valid records, the restocked and sold totals are never negative |
| Store.ProductsValid | backend/models/Product.js:4-42 | every stored product passes the schema validators and has an id already handed out (a definition; part of `Store.Consistent`, kept by `StoreValidProduct` and the store lemmas) |
| Store.UniqueKeys | backend/models/Product.js:7-16 | the two unique indexes: no two stored products share a name or a SKU (a definition; part of the invariant) |
| Store.Clashes | backend/controllers/productController.js:35-37 | storing a product under an id would break a unique index: another stored product has its name or its SKU (a definition; `CreateProduct` and `UpdateProduct` answer DuplicateKey exactly when it holds) |
| Store.RecordsValid | backend/models/Transaction.js:4-18 | every record passes its validator and names an id already handed out (a definition; part of `Store.Consistent`, kept by `AppendValidRecord`) |
| Store.Balanced | backend/controllers/transactionController.js:38-43 | the ledger balance: each product's stock is its adjustment plus what the whole ledger restocked minus what it sold (a definition; part of `Store.Consistent`, kept by `BalanceKept`, `ReplaceBalanced` and the insert and remove lemmas) |
| Store.Consistent | backend/models/Product.js:1-49 | the database invariant: valid products, unique names and SKUs, valid records, dates in order, and the ledger balance, drawn from the product schema, the record schema and its date default (backend/models/Transaction.js:14-26), and the paired saves of backend/controllers/transactionController.js:38-43 (a definition; every `...KeepsConsistent` lemma ends in it, and `Database.Valid` is it over the fields) |
| Store.StoreValidProduct | backend/models/Product.js:27-42 | writing a valid product keeps every stored product valid |
| Store.AppendValidRecord | backend/models/Transaction.js:3-31 | appending a valid record for a known product keeps every record valid |
| Store.AppendLatest | backend/models/Transaction.js:23-26 | a record dated no earlier than the newest keeps record dates in order |
| Store.KeysKept | backend/controllers/transactionController.js:42-43 | changing only a product's count keeps names and SKUs unique |
| Store.StoreKeepsKeys | backend/controllers/productController.js:35-37 | storing, under a new or an existing id, a product that clashes with no other product keeps names and SKUs unique |
| Store.BalanceKept | backend/controllers/transactionController.js:38-43 | a record whose effect matches the count change keeps every product balanced against the ledger |
| Store.CommitKeepsConsistent | backend/controllers/transactionController.js:38-43 | the record append and the product write, taken together, keep the database invariant |
| Store.InsertKeepsConsistent | backend/controllers/productController.js:21-31 | storing a valid, non-clashing product under a fresh id keeps the database invariant, with the new count as that product's adjustment |
| Store.Rebased | backend/controllers/productController.js:47-50 | after an edit the product's adjustment plus the ledger's restocks minus its sales is the new count; every other product's adjustment is unchanged |
| Store.ReplaceBalanced | backend/controllers/productController.js:47-50 | rewriting a product, with its adjustment set to the new count less the ledger's net effect on it, keeps every product balanced |
| Store.ReplaceKeepsConsistent | backend/controllers/productController.js:47-50 | replacing a product by a valid, non-clashing one keeps the database invariant |
| Store.RemoveKeepsConsistent | backend/controllers/productController.js:65 | removing a product keeps the invariant of the others |
| Store.Database.Valid | backend/models/Product.js:1-49 | `Consistent` of the database's fields and ghost adjustment, so it also covers backend/models/Transaction.js:14-26 and backend/controllers/transactionController.js:38-43 (a definition; required and ensured by every store and controller method) |
| Store.Database.ClockAllows | backend/models/Transaction.js:23-26 | a date no earlier than the newest record's, the monotone-clock assumption behind the `Date.now` default (a definition; required by `Commit` and `RecordTransaction`) |
| Store.Database.constructor | backend/models/Product.js:1-49 | an empty database meets the invariant |
| Store.Database.Commit | backend/controllers/transactionController.js:38-43 | appending a valid record for a product and writing that product with its count moved by the record's effect appends exactly that record, rewrites exactly that product, and keeps the invariant |
| Store.Database.Insert | backend/controllers/productController.js:31 | a valid, non-clashing product is stored under an id not in use, which no record refers to, with its count as its adjustment; nothing else changes and the invariant is kept |
| Store.Database.Replace | backend/controllers/productController.js:47-50 | a stored product is replaced by a valid, non-clashing one and its adjustment is rebased; the ledger and the id generator are unchanged and the invariant is kept |
| Store.Database.Remove | backend/controllers/productController.js:65 | exactly that product and its adjustment are removed; the ledger and the id generator are unchanged and the invariant is kept |
| TransactionController.Candidate | backend/controllers/transactionController.js:15-21 | a sale subtracts the quantity from the count; a restock adds it (a definition; `DecideMovesByDelta` and `ReplayBalances` tie it to the ledger) |
| TransactionController.Decide | backend/controllers/transactionController.js:15-38 | the checks after the lookup, in the code's order: type, candidate count, the record validator (a definition; `DecideErrors`, `DecideSuccess` and `DecideMovesByDelta` state its outcomes, and `RecordTransaction` is stated in it) |
| TransactionController.DecideErrors | backend/controllers/transactionController.js:15-38 | for a found product, each of InvalidKind, InsufficientStock and InvalidQuantity occurs exactly under its condition, checked in the code's order, and no other error occurs |
| TransactionController.DecideSuccess | backend/controllers/transactionController.js:31-43 | a success builds the record from the inputs and the product's price before the call; the product changes only in its count, which becomes the candidate and is not negative |
| TransactionController.DecideMovesByDelta | backend/controllers/transactionController.js:31-43 | a success moves the product's count by exactly the new record's effect on it; the record is valid, names the product and carries the call's date |
| TransactionController.OversaleRefused | backend/controllers/transactionController.js:26-28 | a sale of more than is in stock is InsufficientStock |
| TransactionController.NonPositiveQuantityRefused | backend/models/Transaction.js:14-18 | a quantity below 1 always fails; for a sale the failure is InvalidQuantity |
| TransactionController.DecideKeepsProductValid | backend/controllers/transactionController.js:42-43 | a successful transaction leaves a valid product valid |
| TransactionController.Replay | backend/controllers/transactionController.js:6-49 | a run of requests against one product, each answered as `Decide` answers it; a refused request changes nothing (a definition; `ReplayBalances` and `StockScenarios` are about it) |
| TransactionController.ReplayBalances | backend/controllers/transactionController.js:15-43 | over any run of requests on one product, the final stock is the initial stock plus all restocks minus all sales, never negative, nothing else about the product changes, and every record is valid and snapshots the price |
| TransactionController.StockScenarios | backend/controllers/transactionController.js:15-43 | from 10, selling 3 leaves 7, and selling 7 more leaves 0 with two records; a further sale of 1 is InsufficientStock; restocking 50 from 0 gives 50 with one restock record; sales of 0 and -2 are InvalidQuantity |
| TransactionController.RecordTransaction | backend/controllers/transactionController.js:6-49 | a missing product is NotFound; otherwise the outcome is Decide's; a failure changes nothing; a success appends exactly one record and rewrites exactly that product; the database invariant, including the ledger balance, is kept |
| TransactionController.Resolve | backend/controllers/transactionController.js:56 | a record's product resolves to its name and price exactly when it still exists (a definition; `GetTransactions` and `RemovedProductRecordsDangle` are about it) |
| TransactionController.RecordsOf | backend/controllers/transactionController.js:55-58 | the records of a listing, in the same positions |
| TransactionController.NewerFirst | backend/controllers/transactionController.js:57 | `sort({ transactionDate: -1 })`: a newer date comes first (a definition; `GetTransactions` is stated in its order) |
| TransactionController.GetTransactions | backend/controllers/transactionController.js:53-61 | the listing holds every record exactly as often as the ledger does, newest first, each with its product resolved if it still exists |
| ProductController.Entries | backend/controllers/productController.js:7 | every stored product exactly once, with its id |
| ProductController.ByName | backend/controllers/productController.js:7 | `sort({ name: 1 })`: entries compared by name under `LexLe` (a definition; `ByNameIsTotalPreorder` and `GetProducts` are about it) |
| ProductController.ByNameIsTotalPreorder | backend/controllers/productController.js:7 | ordering by name is a total preorder |
| ProductController.GetProducts | backend/controllers/productController.js:5-12 | the listing holds every stored product exactly once, in ascending order of name |
| ProductController.CreateProduct | backend/controllers/productController.js:16-40 | a failed validator is ValidationError; a name or SKU already taken is DuplicateKey; a valid body with neither succeeds; a failure changes nothing; a success stores exactly the built product under a fresh id that no record refers to, advances the id generator so no id is reused, and leaves the rest and the ledger unchanged |
| ProductController.UpdateProduct | backend/controllers/productController.js:44-59 | an invalid body is ValidationError; a missing id is NotFound; a clash is DuplicateKey; a valid body for a stored id without a clash succeeds; a failure changes nothing; a success replaces exactly that product by the patched one, which has neither negative stock nor a negative price, and leaves the ledger unchanged |
| ProductController.DeleteProduct | backend/controllers/productController.js:63-74 | a missing id is NotFound and changes nothing; otherwise exactly that product is removed and the ledger is unchanged |
| ProductController.RemovedProductRecordsDangle | backend/controllers/transactionController.js:55-57 | after a delete, the listing still holds every record; the deleted product's records resolve to no product, and the others resolve as before |
| StockStatus.Classify | frontend/src/pages/Products.jsx:73-77 | exactly 0 is out of stock for any threshold; any other count up to the threshold is low; above it is in stock |
| StockStatus.Label | frontend/src/pages/Products.jsx:74-76 | out of stock shows "Out of Stock", low stock shows "Low Stock", and otherwise the text is "In Stock" |
| StockStatus.LabelInjective | frontend/src/pages/Products.jsx:74-76 | different statuses show different texts |
| StockStatus.Rank | frontend/src/pages/Products.jsx:73-77 | ranks run from out of stock (0) to in stock (2) |
| StockStatus.ClassifyMonotone | frontend/src/pages/Products.jsx:73-77 | for a fixed threshold and non-negative counts, more stock never shows a worse badge |
| StockStatus.TransactionMovesStatus | frontend/src/pages/Products.jsx:73-77 | a recorded sale never improves a product's badge, and a recorded restock never worsens it |

## Left out

- Authentication, authorization and user administration: JWT, password checks and roles are library calls and I/O.
- HTTP routing, JSON encoding and status codes: errors are modelled by kind.
- The front end, apart from `renderStockStatus`.
- Concurrency: each controller call is one atomic step of a single-threaded model. This includes the two saves of `recordTransaction`, and the interleavings it leaves out are lost updates and a record saved without its stock change.
- Persistence failures and the `Conflict` of optimistic concurrency: the stores never fail in this model.
- Floating point: prices are exact reals that are only compared with zero and copied. Quantities and counts are integers.
- JavaScript coercion of the inputs: a string quantity turns `+` into concatenation, and a non-integer, `NaN` or `null` value is possible. These are not modelled.
- Malformed ids that raise a CastError: ids are natural numbers, and `nextId` stands for ObjectId generation.
- `Date.now`: the date is a parameter, `now`. `RecordTransaction` requires that it be no earlier than the newest record, so the model takes the clock to be monotone.
- The random default SKU (`Math.random`): it is a parameter, `generatedSku`, that the caller supplies.
- The `user` reference, the `timestamps` fields, and explicit `null` field values in a request body.
- Image contents: images are kept as given.
- ProductController.GetProducts: a ghost function. It orders the map's entries through a choice of enumeration, so it is not executable. The insertion sort is stable by construction, but stability is not proved; ties on the name cannot occur in a consistent store anyway.
- ProductController.UpdateProduct: the request body is modelled as a `$set` of plain fields only. A body holding update operators (`$inc`, `$mul`, `$min` and the like) is not modelled. Mongoose passes such operators through, and its update validators do not run for them, so in the source they can store a negative count or price. The non-negativity after an update, and `ProductsValid` inside `Database.Valid()`, hold only for plain bodies, as the front end sends (frontend/src/pages/Products.jsx:41).
- ProductController.UpdateProduct: an edit may set the count directly, so the ledger balance proves only that stock equals the adjustment plus the ledger's net effect. The adjustment, a ghost map kept by the store, absorbs every direct change.
- The inventory stubs and their route, which have no behaviour.
