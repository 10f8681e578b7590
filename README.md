# kasir: a verified model of the point-of-sale rules

This project models the business rules of the kasir point-of-sale web app in Dafny and proves properties about them. The app has a React cashier screen and admin pages, plus two Express/MongoDB back ends. All money is in whole rupiah, so it is modelled as `int`.

- **Cart** (`components/pos/POS.tsx`, `components/pos/Cart.tsx`)
  - The cart reducer's four actions.
  - The item counter, the product search and the checkout step.
  - The cart panel's sums and its ±1 quantity buttons.
  - Modules `Pos` and `CartPanel`.
- **Payment dialog** (`components/pos/CheckoutModal.tsx`)
  - The cash is typed as text and parsed by `parseFloat`, modelled as `Text.ParseCash` returning `Option<int>`; `None` stands for `NaN`.
  - The change, the confirm guard and the disabled button.
  - The Enter key, the "Uang Pas" button and the quick amounts.
  - Module `Checkout`.
- **Order payload** (`services/api.ts`): `createTransaction`. Module `Api`.
- **Stock-safe order recording** (`backend/server.js`)
  - `Backend.Store.RecordTransaction` is a class method. Its loop lowers stock item by item in a product map field that it updates in place. On any failure it puts the map back as it was and stores nothing.
  - It is proved against the function `Backend.RecordOutcome`, whose own properties are proved as lemmas.
  - The top-5 report. Module `Backend`.
- **Catalog, user and transaction store** (`server/server.js`)
  - `Server.Store` holds the users, categories, products and transactions tables as fields that its handler methods reassign.
  - `mapId`, login and the user list are pure functions in `ServerDocs`. So are the bulk-import filter, the date-range listing and the top-10 report in `Server`.
- **Top products** (both servers): the group/sort/limit rule is shared as module `TopSelling`.
- **Sales report page** (`components/admin/Reports.tsx`): its totals and the CSV text it exports. Module `Reports`.
- **Shared entities and helpers**
  - The entities of `types.ts` are in `Catalog`.
  - `Seqs` holds JavaScript's `filter`/`map`/`reduce`/`sort`/`$limit` as sequence functions.
  - `Text` holds decimal text, `parseFloat` on integer text, ASCII lower-casing, `includes`, `join` and `split`.

Ids (`number` on the client, MongoDB `ObjectId` on the servers) are modelled as `nat`. A request parameter that must be a valid ObjectId is an `Option<Id>`, with `None` for an invalid one. Where a handler passes it to `new ObjectId` unchecked, the invalid case is a `Server.Reply` of `NoReply`: the constructor throws and no answer is sent.

## Model

| member | source | states |
|---|---|---|
| Pos.AddExistingIncrements | components/pos/POS.tsx:21-27 | adding a product already in the cart adds exactly 1 to that line's quantity; length, order and every other line are unchanged |
| Pos.AddNewAppends | components/pos/POS.tsx:28 | adding a product not in the cart appends one line with quantity 1 at the end |
| Pos.ReducerKeepsIdsDistinct | components/pos/POS.tsx:19-43 | every action keeps the line ids pairwise distinct |
| Pos.WithoutLineKeepsDistinct | components/pos/POS.tsx:30 | the filter that removes a line keeps the ids distinct |
| Pos.UpdateNonPositiveIsRemove | components/pos/POS.tsx:30-34 | UPDATE_QUANTITY with a quantity of 0 or less gives the same cart as REMOVE_ITEM for that id |
| Pos.UpdatePositiveSetsQuantity | components/pos/POS.tsx:35-37 | UPDATE_QUANTITY with a positive quantity sets that quantity on the matching line and leaves every other line as it was |
| Pos.UnknownIdLeavesCart | components/pos/POS.tsx:29-37 | removing or updating an id with no line leaves the cart unchanged |
| Pos.ReducerKeepsQuantitiesPositive | components/pos/POS.tsx:19-43 | if all quantities are at least 1 before an action, they are all at least 1 after it |
| Pos.ReducerKeepsOrder | components/pos/POS.tsx:19-43 | lines keep their order: adding a new product appends its id; ADD_ITEM on a present id and a positive UPDATE_QUANTITY keep the id sequence; the other actions give a subsequence of it |
| Pos.ClearEmpties | components/pos/POS.tsx:38-39 | CLEAR yields the empty cart, whose item counter is 0 |
| Pos.AddedLineAt | components/pos/POS.tsx:22-27 | with distinct ids, adding the product of line k changes only line k, adding 1 to its quantity |
| Pos.AddItemTotals | components/pos/POS.tsx:21-28 | ADD_ITEM raises the item counter by 1, and the cart total by the price of the line that grew |
| Pos.WithoutLineAt | components/pos/POS.tsx:30 | with distinct ids, removing line k's id deletes exactly position k |
| Pos.RemoveItemTotals | components/pos/POS.tsx:29-30 | REMOVE_ITEM lowers the item counter by the removed line's quantity and the total by its amount |
| Pos.SearchProducts | components/pos/POS.tsx:71-80 | the search result is a subsequence of the products; every product in it matches the category (unless 'all') and contains the query ignoring case; every matching product is in it; the result is exactly the products that match, each once and in their order |
| Pos.HandleCheckout | components/pos/POS.tsx:94-98 | a request is sent exactly when a user is signed in and the cart is not empty; it is the `createTransaction` payload; the cart is cleared exactly when a request was sent and saved, and is otherwise kept |
| CartPanel.LineAmountsSumToSubtotal | components/pos/Cart.tsx:16-17 | the amounts shown on the lines (price × quantity) add up to the subtotal, and the total equals the subtotal |
| CartPanel.PlusIsAddAgain | components/pos/Cart.tsx:45 | on a cart with distinct ids, the plus button's request (quantity + 1) gives the same cart as adding that product again; the counter grows by 1 and the total by the product's price |
| CartPanel.MinusOnLastUnitRemoves | components/pos/Cart.tsx:41-52 | the minus button on a line with one unit removes the line, as the trash button does |
| CartPanel.MinusDecrements | components/pos/Cart.tsx:41 | the minus button on a line with more than one unit lowers only that line by 1, the counter by 1 and the total by the price |
| CartPanel.PayEnabledIffCheckoutSends | components/pos/Cart.tsx:73-80 | the Clear and Pay buttons are disabled exactly when the cart is empty, which is exactly when checkout for a signed-in user would send nothing |
| Checkout.Change | components/pos/CheckoutModal.tsx:15-21 | change is never negative; it is cash − total when the parsed cash is a number covering the total, and 0 otherwise |
| Checkout.HandleConfirm | components/pos/CheckoutModal.tsx:23-28 | `onConfirm` is called exactly when the parsed cash is a number of at least the total, and it receives that exact parsed value |
| Checkout.GuardsAgree | components/pos/CheckoutModal.tsx:87-102 | the button is enabled exactly when a click confirms, and that is exactly when the change panel is shown; the change shown is the confirmed cash minus the total |
| Checkout.OnKey | components/pos/CheckoutModal.tsx:30-37 | Escape closes the dialog and other keys do nothing |
| Checkout.EnterMatchesButton | components/pos/CheckoutModal.tsx:23-37 | Enter confirms exactly when the confirm button is enabled, with the parsed cash |
| Checkout.ExactCashConfirms | components/pos/CheckoutModal.tsx:76-77 | after "Uang Pas" (`String(total)`) the dialog confirms with exactly the total, shows change 0 and the button is enabled |
| Checkout.QuickAmountConfirmsIffCovers | components/pos/CheckoutModal.tsx:45-83 | a quick amount (20000, 50000, 100000) confirms exactly when it covers the total, and the change is its excess over the total |
| Checkout.ConfirmedPayloadChange | components/pos/CheckoutModal.tsx:23-28 | the cash the dialog confirms becomes `cashReceived` of the `createTransaction` payload (services/api.ts), whose change is then the change the dialog showed, never negative |
| Text.ParseCashIntToString | components/pos/CheckoutModal.tsx:76 | `parseFloat(String(n))` reads back n for every integer n |
| Api.CreateTransaction | services/api.ts:89-101 | items and cashier are the inputs unchanged; subtotal is Σ price × quantity; total equals subtotal; paymentMethod is 'Cash'; change is cashReceived − total |
| Api.UnderpaidChangeIsNegative | services/api.ts:92 | nothing checks the cash here: the change is negative exactly when the cash is below the cart's sum |
| Backend.ApplyItemsEffect | backend/server.js:225-232 | when the stock loop succeeds, every ordered product exists; each product's stock is lowered by the units ordered of it in all, and no product appears or vanishes |
| Backend.ApplyItemsKeepsStock | backend/server.js:226-230 | starting from non-negative stocks, a successful loop leaves every stock at 0 or more |
| Backend.ApplyItemsFailureNamesItem | backend/server.js:226-229 | every failure of the loop is "Stok tidak cukup untuk produk" naming one of the ordered items |
| Backend.ApplyItemsSucceedsIff | backend/server.js:225-232 | with non-negative quantities, the loop succeeds exactly when every ordered product exists and has stock for the sum of its lines across the order |
| Backend.CoveredStep | backend/server.js:225-232 | one loop step: the order is coverable exactly when the rest is coverable from the lowered stock |
| Backend.QuantityForAtLeast | backend/server.js:225-232 | with non-negative quantities, a product's summed quantity is at least any one of its lines |
| Backend.QuantityForNonNegative | backend/server.js:225-232 | with non-negative quantities, the summed quantity of any product is at least 0 |
| Backend.QuantityForAbsent | backend/server.js:225-232 | a product with no line in the order is asked for 0 units |
| Backend.LastUnitSoldOnce | backend/server.js:225-232 | two lines of a product with one unit left fail on the second line, naming it |
| Backend.RecordOutcomeFacts | backend/server.js:225-255 | an order is stored exactly when the loop succeeds, the cashier exists and subtotal, total and amountPaid are present. A stock failure wins over an unknown cashier ('Kasir tidak ditemukan'). The order stores subtotal, discount (default 0), total and amountPaid as sent; change = amountPaid − total; the lines are snapshots with productId = item id; the cashier is stored as its id and username |
| Backend.TotalNotRecomputed | backend/server.js:247-251 | the stored total is the one sent, even when it differs from the lines' sum |
| Backend.Store.RecordTransaction | backend/server.js:218-284 | on success the products are the loop's result, the order is appended and the id counter advances. On any failure the products, orders and counter are exactly as before and the error is returned. Stocks stay at 0 or more |
| Backend.Store.constructor | backend/server.js:20-65 | an empty order log over product and user tables whose stocks satisfy the schema minimum of 0 |
| Backend.TopProductsCorrect | backend/server.js:323-355 | 5 entries, or one per product sold when fewer were sold. A product sold but left off means the list is full, and that product sold no more units than any listed one. No product twice, sorted by quantitySold from highest; each quantitySold is the units of that product sold since the limit; name and image come from its first sale in the window |
| TopSelling.AbsorbFacts | server/server.js:344-349 | with distinct bucket ids, one sold line adds its quantity and revenue to its own bucket only, or opens a new one at the end |
| TopSelling.FirstWithAppend | backend/server.js:336 | `$first` of a longer line list is the earlier first, if any |
| TopSelling.UnsoldIsAbsent | backend/server.js:334-339 | a product never sold has quantity 0, revenue 0 and no first sale |
| TopSelling.GroupShape | backend/server.js:334-339 | bucket ids are distinct, there are no more buckets than lines, and every sold product has a bucket |
| TopSelling.NewBucketAgrees | server/server.js:344-349 | a bucket opened for a product's first sale holds that sale's quantity, revenue, name and image |
| TopSelling.OldBucketAgrees | server/server.js:344-349 | adding a line to a correct bucket keeps it correct for the longer list |
| TopSelling.GroupSums | server/server.js:344-349 | every bucket holds the summed quantity and the summed price × quantity of its product, and the name and image of its first sale |
| TopSelling.NoRepeatWhenCountOnce | backend/server.js:340-341 | an element occurring once in the ranked list is at no other position |
| TopSelling.DistinctCountsOnce | backend/server.js:334-339 | with distinct bucket ids, each bucket occurs once |
| TopSelling.TopShape | backend/server.js:340-341 | the report has min(limit, buckets) entries, sorted by quantity from highest, each a bucket |
| TopSelling.TopAgrees | backend/server.js:334-341 | every listed entry carries its product's true sums and first-sale name |
| TopSelling.TopDistinct | backend/server.js:334-341 | no product is listed twice |
| TopSelling.TopCutoff | backend/server.js:340-341 | a bucket left off means the list is full and that bucket sold no more than any listed one |
| TopSelling.UnlistedSoldNoMore | backend/server.js:333-341 | a product with a sale that is not listed means the list is full, and its summed units are no more than any listed entry's |
| ServerDocs.MapDoc | server/server.js:92-96 | `_id` is removed. Every other field is kept with its value. `id` holds the old `_id`, unless the document had its own `id`, which the spread keeps |
| ServerDocs.MapId | server/server.js:92-94 | null maps to null and a document to a document |
| ServerDocs.MapIdRoundTrip | server/server.js:92-96 | renaming `id` back to `_id` recovers any document that has an `_id` and no `id` |
| ServerDocs.LoginFacts | server/server.js:103-112 | login answers exactly when a stored user has that username and PIN. The answer is the public form of the first such user: its fields, including role and id, with no PIN |
| ServerDocs.ListUsersHidesPin | server/server.js:114-117 | the list has one entry per user, none with a PIN, each keeping the user's other fields |
| Server.ProductsToInsertFacts | server/server.js:241-250 | the products to insert are, in order, exactly those with a valid category id, each with its own fields and that id. None are left exactly when no product has one |
| Server.UpdateUsersFacts | server/server.js:127-134 | an update changes only the first user with that id. Its PIN is replaced exactly when the body supplies a truthy one. Every other body field is set and the remaining fields are kept |
| Server.CreatedUserCanLogIn | server/server.js:103-125 | a user created with a username and PIN can log in with them, and the created user's answer has no PIN |
| Server.TransactionsInRangeFacts | server/server.js:304-310 | the listing holds exactly the stored transactions with start ≤ timestamp ≤ end, each exactly as often as it is stored, sorted by timestamp with the newest first |
| Server.InsertedTransactionListed | server/server.js:290-310 | a transaction stored at time `now` is listed for a range exactly when `now` lies in it |
| Server.TopProductsFacts | server/server.js:339-377 | 10 entries, or one per product sold when fewer were sold. A product sold but left off means the list is full, and that product sold no more units than any listed one. No product twice, sorted by quantity from highest. Each entry holds its product's summed quantity and revenue (price × quantity) in the range. A product no longer stored shows the name it was first sold under |
| Server.TopProductsNames | server/server.js:352-367 | each entry shows the name of the stored product with its id when that name is present and not null, and otherwise the name it was first sold under in the range |
| Server.Store.constructor | server/server.js:17-25 | the four tables (users, products, categories, transactions) start empty with a fresh id counter |
| Server.Store.CreateUser | server/server.js:119-125 | a missing or empty PIN gives 400 "PIN is required" and nothing changes. Otherwise the body is stored with a fresh `_id` and returned without the PIN |
| Server.Store.UpdateUser | server/server.js:127-136 | an invalid id gets no answer and changes nothing. Otherwise the table becomes `UpdateUsers` of the old one, and the answer is the updated user without the PIN, or null when there is none |
| Server.Store.DeleteUser | server/server.js:138-142 | an invalid id gets no answer and changes nothing. For a valid id it removes the first user with that id, if any, and answers success |
| Server.Store.CreateCategory | server/server.js:164-174 | an empty name gives 400 and a taken name gives 409 'Nama kategori sudah ada', both with no change. Otherwise the category is appended with a fresh id. Names stay unique |
| Server.Store.UpdateCategory | server/server.js:176-187 | an empty name gives 400, checked before the id. Then an invalid id gets no answer and changes nothing. A name used by a different category gives 409. Otherwise exactly the category with that id gets the name (keeping its own name is allowed), and the answer is null when there is none. A non-empty name used by no other category always succeeds. Names stay unique |
| Server.Store.DeleteCategory | server/server.js:189-213 | an invalid id gives 400. With no such category the product deletions are rolled back and the answer is 500 'Transaction failed'. Otherwise the category and exactly its products are removed, and the other categories keep their order |
| Server.Store.BulkImport | server/server.js:236-253 | a missing or empty array gives 400. Nothing to insert gives 400. Otherwise `ProductsToInsert` is appended with fresh ids and the answer is its count |
| Server.Store.InsertTransaction | server/server.js:290-302 | the body is stored as sent, stamped with the server clock (any timestamp it carried is replaced), and appended |
| Reports.TotalsSplit | components/admin/Reports.tsx:68-69 | total sales and total transactions add up over any split of the rows, so each row counts once |
| Reports.TotalsBoundRows | components/admin/Reports.tsx:68-69 | with no negative figures, each total is at least any single row's figure |
| Reports.TotalsNonNegative | components/admin/Reports.tsx:68-69 | with no negative figures, both totals are at least 0 |
| Reports.CsvLines | components/admin/Reports.tsx:55-57 | when no period has a line break, the CSV is the header line followed by one line per row in order, with rows + 1 lines and no trailing empty line |
| Reports.CsvLineIsJoin | components/admin/Reports.tsx:57 | a row's CSV line is its three fields joined by commas |
| Reports.CsvLineFields | components/admin/Reports.tsx:57 | splitting a row's line on commas gives back its three fields exactly when the period has no comma |
| Reports.CsvFiguresReadBack | components/admin/Reports.tsx:57 | the written sales and transaction figures read back as the row's numbers |

## Left out

- Floating point. All amounts are whole rupiah. `parseFloat` is modelled on integer text only: optional leading white space (the ECMAScript white space and line terminators), a sign and digits, with anything after the digits ignored. A fractional part, exponents, `Infinity` and hexadecimal forms are not modelled.
- `String(n)` for amounts of 10^21 or more, which JavaScript writes in exponent form.
- Unicode case mapping: `toLowerCase` is modelled on ASCII letters only.
- Currency formatting (`toLocaleString`), receipts, printing, the download link and `encodeURI` around the CSV, and the `data:text/csv` prefix.
- React state, effects, routing, theme, and the page-level keyboard shortcuts of POS.tsx.
- `handleResponse`/`apiRequest` and every `fetch`. The network and the payload's JSON encoding are not modelled. Neither is the mismatch between the client payload (`cashReceived`, `cashier`) and the fields backend/server.js reads (`amountPaid`, `cashierId`): each file is modelled as written.
- Date and time logic: the clock is a parameter (`now`); range bounds are integers; the 7-day sales loop and the `$dateToString` sales chart are not modelled.
- Concurrency, database transaction isolation and `withTransaction` retries. The all-or-nothing of one call is modelled by restoring the state on failure.
- Express and MongoDB plumbing: connection, seeding, CORS, body limits, and the response shaping (`res.status`).
- The product CRUD routes and the sales-summary report routes, which are outside the modelled rules.
- Backend.RecordOutcome: mongoose's schema validation is modelled only as "subtotal, total and amountPaid must be present". Its composed error text is modelled as "Transaction validation failed". Mongoose casts and the `stock` minimum check on save (always met after the stock test) are not modelled.
- Backend.Store.RecordTransaction: a malformed `cashierId` or item id (a cast error) and a non-array `items` are not modelled. Ids are well-formed numbers here.
- Backend.TopProductsCorrect: the period text parsing (`parseInt(period.replace('d',''))`) is left out; the date limit is a parameter.
- Backend.Store and Server.Store: `ObjectId` generation is a counter. Mongo's unique index on user names and category names is not modelled. Category-name uniqueness is kept by the handlers' own checks.
- Server.Store.CreateUser and Server.Store.UpdateUser: a client-supplied `_id` in the body is replaced by the generated one, or ignored on update.
- Server.Store.UpdateUser, Server.Store.DeleteUser and Server.Store.UpdateCategory: an invalid `:id` is modelled only as `NoReply`. What Express then does with the rejected promise (a hung request, or a default error page) is not modelled.
- Server.Store.InsertTransaction: the body's `_id` is dropped, and item ids are assumed to be valid ObjectIds already. The response shaping is not modelled.
- Server.TopProductsFacts: of the product lookup, only the name fallback (`$ifNull`) is modelled. The current price, image and category are not.
- TopSelling: MongoDB's `$sort` is not stable, so the order of tied quantities is not promised. The model sorts ties in a fixed way, and no lemma relies on it.
- ServerDocs.LoginFacts: the PIN is compared as plain text, as in the source. Hashing or timing is not a concern of the model.
