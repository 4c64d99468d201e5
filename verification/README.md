# Stock ledger and order fulfilment of the franchise supply server, in Dafny

This project models the write paths of the supply-chain server (`server.js`). A central
warehouse keeps a product catalog with a cached `currentStock` per product and an
append-only stock ledger. Franchise outlets place orders against it, and the warehouse
approves, dispatches, cancels or delivers them. The Firestore collections (users, products,
orders, ledger) are held in one immutable `Store`. Each route handler is a pure function
`Store × request × now → Result<Store, Error>`, and a rejected request produces no store,
so it changes nothing.

The modules follow the server's structure:

- `Results`: `Option` and `Result`.
- `Text`: the pieces of JavaScript string behaviour the routes use:
  - `trim`
  - `${n}` for integers
  - `join`
  - the 35-character summary cut
- `Ids`: id assignment (largest id + 1, or a fixed first id) and first-match lookup
  (`where(...).limit(1)`).
- `Model`: the documents, the store and the errors.
- `Ledger`:
  - how an entry is posted
  - `getDerivedStock`
  - the derived stock as IN total minus OUT total
- `Agreement`: the agreement-expiry predicate and `GET /franchise/agreement`.
- `Catalog`: `POST /products` and `POST /products/:id/update`.
- `Orders`: `POST /orders`, `PUT /orders/:id/status` (including dispatch) and
  `PUT /orders/:id/challan`.
- `Lifecycle`: what those routes guarantee across calls, including the quirks of the code
  as written.
- `Invariants`: the store invariant and its preservation by every route.
- `Routes`: a run of requests. From a store with no products, the cached stock of every
  product always equals the stock its ledger derives.

The model follows the code as written, including these behaviours:

- A `Delivered` request succeeds from every status, even `Cancelled`, because it is handled
  before the closed-order guard.
- `Approved` and `Dispatched` are checked only against the closed states. So a `Dispatched`
  order can go back to `Approved`, or be dispatched again, and the second dispatch
  decrements stock again.
- Dispatch reads the raw `items` of the order, not its priced `lineItems`. An item skipped
  at creation because its product is unknown makes dispatch fail. A quantity of zero or
  less passes the stock check and is posted.
- Only a `franchise_owner` is held to the agreement when ordering.
- The dispatch agreement check passes when the order has no (or a zero) franchise id, or
  when no account of that franchise exists.
- The status route checks no role.
- A write the Firestore client refuses ends the request with a server error, modelled as
  `WriteRejected`. Two such writes occur. An update request with none of its four fields
  asks for an update with no field (server.js:286). An order from an account without a
  `franchiseId` field carries an `undefined` value, which Firestore refuses because the
  client is set up without `ignoreUndefinedProperties` (server.js:38-39, :447). A
  franchise id stored as `null`, as on the manager account, is accepted: the order stores
  `null` and its dispatch skips the agreement check.
- The duplicate-name check at product creation compares names exactly. The comment above
  it says "case-insensitive", but the query is an equality on the trimmed name.

## Model

| member | source | states |
|---|---|---|
| Ledger.GetDerivedStock | server.js:88-97 | walking every ledger entry, adding IN quantities and subtracting OUT quantities of the product, yields its IN total minus its OUT total |
| Ledger.DerivedAppend | server.js:88-97 | one more entry moves a product's derived stock by +quantity for IN, −quantity for OUT, and by 0 for CREATE, PRICE_UPDATE or another product |
| Ledger.DerivedWithoutEntries | server.js:88-97 | a product no ledger entry names derives a stock of 0 |
| Ledger.Post | server.js:252-261 | posting only appends; the new entry carries exactly the given date, product, name, type, quantity, actor and reference, under the next ledger id |
| Ledger.PostIds | server.js:249-251 | the new ledger id is 1 in an empty ledger, otherwise one more than an existing id and above every existing id; increasing ids stay increasing |
| Ids.NextId | server.js:327-328 | a new id is the first id in an empty collection, otherwise one more than an id present and greater than every id present |
| Ids.MaxOf | server.js:327-328 | the largest id is one of the ids and no id exceeds it |
| Ids.IndexOf | server.js:60-65 | lookup returns the first position holding the id, and None exactly when no position holds it |
| Model.FindUserById | server.js:54-58 | the account lookup returns an account with that document id, and None exactly when there is none |
| Model.FindProduct | server.js:60-65 | the product lookup returns the first position of a product with that id, and None exactly when there is none |
| Model.FindOrder | server.js:465-469 | the order lookup of the status and challan routes returns the first position of an order with that id, and None exactly when there is none |
| Model.FindUserByFranchise | server.js:488-490 | the franchise lookup returns the first account of that franchise, and None exactly when there is none |
| Model.ParseStatus | server.js:473-549 | a requested status is recognised only when it is exactly one of the five names |
| Text.Trim | server.js:322-331 | the trimmed name is a contiguous piece of the name, only white space is removed from either end, and it neither starts nor ends with white space |
| Text.TrimIdempotent | server.js:322-331 | trimming an already trimmed name changes nothing |
| Text.IntToString | server.js:418 | the printed quantity is a minus sign exactly for negative values, followed by digits that read back as the value, with no leading zero, and 0 printed as the single digit `0` |
| Text.Abbreviate | server.js:432-433 | the summary never exceeds 35 characters; a longer one keeps its first 32 characters followed by "..." and a shorter one is unchanged |
| Agreement.AgreementStatus | server.js:208-231 | non-owners are refused, a missing account is not found, and the status is Expired exactly when the end date is missing or before now |
| Agreement.AgreementValid | server.js:396 | defines the agreement test shared by the agreement route, order creation and dispatch: an end date exists and is not before now |
| Agreement.LapseIsPermanent | server.js:221 | an agreement that is not in force at some instant is not in force at any later instant |
| Catalog.CreateProduct | server.js:314-357 | only a manager may create; missing fields and an existing trimmed name are refused; otherwise one product is appended with id 1 in an empty catalog and otherwise one more than an existing id and above every id, stock 0 and levels 100/50, plus one CREATE entry of quantity 0 for it under the next ledger id (one more than the largest), attributed to the manager, with reference Initial Creation and dated now; orders and accounts are untouched |
| Catalog.FieldsPresent | server.js:317-319 | defines the field check of product creation: the name and unit are non-empty and the base price is not zero |
| Catalog.NameTaken | server.js:322-323 | defines the duplicate check: some product carries exactly the trimmed name |
| Catalog.NoFieldGiven | server.js:286 | defines the update that asks Firestore to write an empty set of fields: none of price, stock-in, minimum level or critical level is given |
| Catalog.LogUpdate | server.js:245-283 | an update writes a PRICE_UPDATE entry of quantity 0 with old and new price when a price is given, then an IN entry of the added quantity when stock is added, each under the next ledger id after the entries before it, each for the product under its current name, attributed to the manager and dated now, and nothing else |
| Catalog.LogPrice | server.js:245-261 | a price change appends one PRICE_UPDATE entry under the next ledger id, of quantity 0, recording the old and new price, for the product under its current name, attributed to the manager and dated now; no price appends nothing; entry ids stay increasing |
| Catalog.LogStock | server.js:264-283 | a stock-in appends one IN entry under the next ledger id, of the added quantity with reference Manual Stock In, for the product under its current name, attributed to the manager and dated now; no stock-in appends nothing; entry ids stay increasing |
| Catalog.UpdateProduct | server.js:234-299 | only a manager may update and the product must exist; a request with none of the four fields ends in a rejected write; otherwise each given field is applied, the cached stock grows by exactly the added quantity, no other product changes, and the ledger receives the update's entries |
| Catalog.UpdateMovesLedgerWithStock | server.js:264-283 | after an update the updated product's derived stock grows by exactly the quantity added to its cached stock, and no other product's derived stock changes |
| Catalog.LogUpdateMovement | server.js:245-283 | the entries of an update move derived stock by the added quantity for that product and by nothing for any other |
| Catalog.PriceEditKeepsLockedPrices | server.js:421-427 | a catalog price change leaves the unit prices and totals locked into existing orders unchanged |
| Orders.KeptItems | server.js:410-413 | an item becomes a line exactly when its quantity is positive and its product exists |
| Orders.KeptItemsAppend | server.js:410-421 | the kept items of a concatenation are the kept items of each part in the same order, so lines follow the request order |
| Orders.KeptItemsCounts | server.js:410-413 | an item that becomes a line is kept exactly as many times as the request holds it, and any other item not at all |
| Orders.TallyItems | server.js:405-430 | the creation loop yields one line per kept item; its total is the sum of unit price × quantity over the lines, its count the number of lines, its names the lines' "name xqty" labels |
| Orders.TallyLocksPrices | server.js:414-427 | line k of the order is kept item k with the product's name and unit, the product's current base price locked in as unit price, and that price × quantity as line total |
| Orders.OutletOf | server.js:448 | defines the order's outlet name: the account's outlet name, or "Franchise Outlet" when it has none |
| Orders.MayOrder | server.js:393-398 | defines the creation gate: an account that is not a franchise owner may always order, an owner only with an agreement in force |
| Orders.CreateOrder | server.js:389-457 | a missing account is not found, an owner without a valid agreement is refused, an empty item list is refused, an account document without a `franchiseId` field ends in a rejected write while one storing `null` is accepted; otherwise exactly one Pending order is appended with id 1001 in an empty collection and otherwise one more than an existing id and above every id, the request items, the locked lines, their total and count, a summary of at most 35 characters, the account's franchise id (or `null`) and outlet, and nothing else changes |
| Orders.DispatchBlocked | server.js:486-497 | defines the dispatch agreement check: it blocks only when the order has a non-zero franchise id, an account of that franchise exists, and the first such account's agreement is not in force |
| Orders.Available | server.js:503-512 | defines an item that passes the stock check: its product exists and its cached stock is not below the quantity |
| Orders.ShortfallError | server.js:503-512 | defines the error of a failing item: product not found, or insufficient stock with the available and required quantities |
| Orders.FirstShortfall | server.js:500-513 | the stock check reports the first item whose product is missing or whose stock is below its quantity, and passes exactly when every item is available |
| Orders.PostOne | server.js:516-539 | one dispatch step appends an OUT entry under the next ledger id, with the item's product and quantity, the order id as actor and reference and the product's current name, and lowers that product's cached stock by the quantity |
| Orders.PostOuts | server.js:515-541 | the posting loop keeps accounts, orders and product ids, and appends exactly one entry per item after the existing ledger |
| Orders.Dispatch | server.js:484-542 | a lapsed agreement blocks dispatch; otherwise the first failing item is reported; dispatch succeeds exactly when neither happens, and then posts every item and sets the status to Dispatched |
| Orders.UpdateStatus | server.js:460-556 | the full transition table: unknown order not found; Delivered always accepted; closed orders refuse the rest; Approved accepted; Dispatched runs dispatch; Cancelled accepted from Pending or Approved and refused after dispatch; an unknown status changes nothing |
| Orders.UploadChallan | server.js:559-583 | only a manager may mark a challan and the order must exist; a second mark is refused; otherwise only that order's challan flag and date change |
| Lifecycle.PostOutsLedger | server.js:521-534 | the dispatch postings keep ledger ids strictly increasing |
| Lifecycle.PostOutsEntry | server.js:516-534 | the entry posted for item k is an OUT of that item's product and quantity, dated now, attributed to the order |
| Lifecycle.PostOutsLastId | server.js:521-526 | the last step of the dispatch loop gives its OUT entry the next id after every entry the earlier steps posted |
| Lifecycle.PostOutsPosted | server.js:515-534 | every OUT entry the dispatch loop appends carries the next id after all entries before it, as if each were posted on its own |
| Lifecycle.PostOutsEntryName | server.js:524-529 | the entry posted for item k carries the name its product has when the dispatch starts |
| Lifecycle.PostOutsKeepsNames | server.js:536-539 | the posting loop changes no product's name |
| Lifecycle.PostOneKeepsNames | server.js:536-539 | one posting step changes no product's name |
| Lifecycle.PostOutsUnmentioned | server.js:515-541 | the posting loop leaves a product that no item names exactly as it was, whether or not product ids are distinct |
| Lifecycle.PostOutsStock | server.js:536-539 | with distinct product ids, dispatch lowers each product's cached stock by the total quantity the items request for it and changes nothing else about any product |
| Lifecycle.PostOutsDerived | server.js:515-540 | dispatch lowers each product's derived stock by the total quantity the items request for it |
| Lifecycle.DispatchAllOrNothing | server.js:500-513 | if any item is unavailable, dispatch fails, naming the first failing item unless the agreement already failed, and no store is produced |
| Lifecycle.NonPositiveQuantityPasses | server.js:510 | an item of quantity zero or less passes the stock check whenever its product exists with non-negative stock |
| Lifecycle.DispatchNeedsAgreement | server.js:486-497 | a lapsed agreement of the order's franchise account refuses dispatch, whatever the stock |
| Lifecycle.DispatchSetsStatus | server.js:542 | a successful dispatch sets the order to Dispatched, changes no other order field or order, and leaves accounts alone |
| Lifecycle.DispatchStock | server.js:515-541 | with distinct product ids, a successful dispatch lowers each product's cached stock by the total quantity the raw items request for it and changes nothing else about any product |
| Lifecycle.DispatchLeavesOtherProducts | server.js:515-541 | a successful dispatch leaves a product that no item of the order names exactly as it was |
| Lifecycle.DispatchLedger | server.js:515-534 | a successful dispatch appends one OUT entry per raw item, in item order, with the item's product, that product's name and the item's quantity, dated now, and the order id, each under the next ledger id after every entry before it, and keeps every earlier entry |
| Lifecycle.DispatchedCanBeApproved | server.js:482-483 | a Dispatched order accepts a request for Approved and becomes Approved |
| Lifecycle.RedispatchPostsAgain | server.js:484-542 | a Dispatched order whose items are still in stock can be dispatched again, posting one more entry per item |
| Lifecycle.DeliveredFromAnyStatus | server.js:473-477 | a Delivered request is accepted from every status and changes only that order's status |
| Lifecycle.NoReturnToPending | server.js:473-549 | no accepted status request makes an order Pending unless it already was |
| Lifecycle.SkippedItemStaysInItems | server.js:410-445 | an item skipped at creation because its product is missing is not a line, yet stays in the order's raw items where the stock check finds it unavailable |
| Lifecycle.NullFranchiseSkipsAgreement | server.js:447-451 | an account whose franchise id is stored as `null` gets an order storing `null`, whose dispatch is never blocked by the agreement check |
| Lifecycle.ChallanOneShot | server.js:568-577 | after a successful challan upload every later upload of that order is refused |
| Lifecycle.StatusKeepsChallan | server.js:460-556 | status requests never change any order's challan flag or date |
| Invariants.CreateProductPreservesWf | server.js:314-357 | product creation keeps ids unique, ledger ids increasing, every entry naming a product, cached stock equal to derived stock, and order totals locked |
| Invariants.UpdateProductShape | server.js:241-286 | an accepted update replaces only the updated product, keeps its id, and only appends ledger entries for that product, with increasing ids when the ledger's ids increased before |
| Invariants.UpdateProductDerived | server.js:264-286 | after an accepted update every product's derived stock moves by the change in its cached stock: the stock added for the updated product, nothing for any other |
| Invariants.UpdateProductPreservesWf | server.js:234-299 | a product update keeps the store invariant; in particular cached and derived stock stay equal |
| Invariants.CreateOrderPreservesWf | server.js:389-457 | order creation keeps order ids unique and every order's totals equal to those of its lines |
| Invariants.UpdateStatusPreservesWf | server.js:460-556 | every accepted status request, dispatch included, keeps the store invariant |
| Invariants.DispatchPreservesWf | server.js:484-542 | dispatch keeps the store invariant: the entries it posts name catalogued products and cached and derived stock drop together |
| Invariants.UploadChallanPreservesWf | server.js:559-583 | marking a challan keeps the store invariant |
| Routes.HandlePreservesWf | server.js:234-583 | every accepted write request keeps the store invariant |
| Routes.RunPreservesWf | server.js:234-583 | any sequence of write requests, accepted or rejected, keeps the store invariant |
| Routes.CachedStockIsDerived | server.js:88-97 | from a store with no products, orders or entries, after any sequence of requests every product's cached stock equals its IN total minus its OUT total, every entry names a product and ledger ids increase |

## Left out

- Transport and authentication are not modelled: Express routing, CORS, logging, JWT and bcrypt login. The acting account's id, role and email are plain parameters.
- Firestore itself is not modelled. Its initialisation, document ids, and the read-back of the updated product after `/products/:id/update` are replaced by the in-memory `Store`.
- Concurrency is not modelled. Every request runs alone, so the race between concurrent max+1 id reads and the atomicity of `FieldValue.increment` fall outside the model.
- Dates are integers and `now` is a parameter. ISO formatting (`toISOString().substring(0,16)`) and `Timestamp.toDate` conversion are left out. An end date stored as a falsy value other than "missing" is not distinguished.
- Prices and amounts are integers. Floating-point arithmetic is not modelled.
- JavaScript's coercions are not modelled: `Number(...)` on ids and quantities, and comparisons between string and number quantities. Quantities arrive as integers, and the raw `items` map is a sequence of (product id, quantity) pairs in `Object.entries` order.
- An order whose `items` map is absent is modelled as an order with no items. Dispatch then posts nothing and sets the status.
- `currentStock || 0`: the cached stock is always present in the model, so the fallback to 0 is not modelled.
- Strings are sequences of Unicode code points, not UTF-16 code units, so a summary with characters outside the Basic Multilingual Plane is measured differently.
- The read-only routes are left out: `GET /products` (sorting), `/products/active`, `GET /orders` (franchise filter and sort), `/franchises` and `/ledger` (latest 50).
- `seed.js` and the other scripts are left out. They write stock without ledger entries, which is why the stock agreement is stated from a store without products.
- The `models/*.js` schemas are left out: the server never loads them. Their movement types and status names are the ones used here.
- The text of reference and performer strings (`Price updated: ₹old -> ₹new`, `System (Order #id)`) is a structured value. Only its content is modelled, not its rendering.
