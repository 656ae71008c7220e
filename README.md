# Inventory stock ledger and request workflow

A Dafny model of the core of a Laravel inventory application: items with a stock
counter, receipts that raise it, dispatches that lower it, and item requests that users
submit and managers approve (lowering stock) or reject.

The model covers:
- the stock operations of the `Item` model;
- the role predicates of `User`;
- the status predicates of `ItemRequest`;
- the generator of item codes;
- the three form requests that authorize and validate item, dispatch and request creation;
- the inline validation of a decision;
- the controller actions that record and delete receipts and dispatches, and file, update, delete and decide requests;
- the filters of the four index pages.

## How it is built

- `Items.Item` is a class whose only mutable field is `stockQuantity`. Every other
  column is a `const`, so the stock operations cannot touch them.
- `Controllers.Inventory` is a class holding the tables:
  - `items` is a sequence of `Item` objects, and an item's id is its position;
  - receipts, dispatches and requests are sequences of datatype rows with unique ids
    below a next-id counter.
- Every action of a controller is a method of `Inventory`. The caller, the clock and
  the ids of the categories and suppliers that exist are parameters.
- A ghost field `stock` mirrors the items' counters. The ghost field `initial` keeps
  each item's opening balance.
- The invariant `Valid()` says:
  - the tables are well formed;
  - no request is filed approved;
  - every counter equals its opening balance plus its receipts, minus its dispatches,
    minus its approved requests (`Ledger.Accounted`).

  Every action keeps `Valid()`.
- Each action states its full outcome as one expression over the old state, in the
  order the source checks it:
  - a route whose row does not exist answers `NotFound`;
  - the inventory-management middleware and the form request's `authorize` answer
    `Forbidden`;
  - a failed validation answers `Invalid` with the offending fields;
  - the redirect-back branches answer `InsufficientStock` or `AlreadyProcessed`;
  - an item insert that the unique index on code refuses answers `DuplicateCode`.

  It also states the new tables and the new stock vector.
- A stock that is not negative stays not negative after every action except the
  deletion of a receipt. `DestroyIncoming` states exactly when that deletion drives
  stock below zero.

## Model

| member | source | states |
|---|---|---|
| Items.Item.IncreaseStock | app/Models/Item.php:114-117 | the counter becomes exactly the old counter plus the quantity; no other column can change |
| Items.Item.DecreaseStock | app/Models/Item.php:122-125 | the counter becomes exactly the old counter minus the quantity, with no guard, so it may go negative |
| Scenarios.CheckedDecrease | app/Models/Item.php:122-133 | hasSufficientStock holds exactly when the stock covers the quantity; lowering a non-negative stock only after it agreed leaves it non-negative, and otherwise nothing changes |
| Scenarios.StockRoundTrip | app/Models/Item.php:114-125 | increase then decrease, and decrease then increase, by the same quantity give back the original stock |
| Users.ManagerIsSuperadminOrAdmin | app/Models/User.php:115-142 | canManageInventory holds exactly for superadmins and admins |
| Users.ExactlyOneRole | app/Models/User.php:115-134 | for a role of the enumeration, exactly one of isSuperadmin, isAdmin, isUser holds |
| Users.ManagerIffNotUser | app/Models/User.php:131-142 | for a role of the enumeration, canManageInventory is the negation of isUser |
| Requests.AtMostOneStatus | app/Models/ItemRequest.php:92-111 | no status satisfies two of isPending, isApproved, isRejected |
| Requests.ExactlyOneStatus | app/Models/ItemRequest.php:92-111 | for pending, approved and rejected, exactly one status predicate holds |
| ItemCodes.FirstCodeOfPrefix | app/Http/Controllers/ItemController.php:142-152 | with no code of the type's prefix, the generated code is the prefix and 0001 |
| ItemCodes.GeneratedCodeNumber | app/Http/Controllers/ItemController.php:133-153 | the generated code is the type's prefix followed by digits that spell one more than the number read from the lexicographically greatest code of that prefix, or 1 when there is none; the digits are exactly four, or more than four with no leading zero |
| ItemCodes.GenerateSeesOnlyItsPrefix | app/Http/Controllers/ItemController.php:142-144 | codes under other prefixes never change the generated code |
| ItemCodes.GenerateAgreesWhileFourDigits | app/Http/Controllers/ItemController.php:142-152 | while every code of the prefix has a four-digit number, the generator as written and the numeric-maximum generator agree |
| ItemCodes.GeneratedCodeFreshWhileFourDigits | app/Http/Controllers/ItemController.php:142-152 | while every code of the prefix has a four-digit number, the generated code is new |
| ItemCodes.NextItemCodeIsFresh | app/Http/Controllers/ItemController.php:142-152 | the numeric-maximum generator never returns an existing code |
| ItemCodes.CodeCollisionPastNineNineNineNine | app/Http/Controllers/ItemController.php:142-152 | with RAW9999 and RAW10000 stored, the generator as written returns RAW10000, which exists |
| ItemCodes.FirstRawMaterialCode | app/Http/Controllers/ItemController.php:135-152 | the first raw material gets RAW0001, from both generators |
| ItemCodes.SecondRawMaterialCode | app/Http/Controllers/ItemController.php:135-152 | after RAW0001 the next raw material gets RAW0002, from both generators |
| ItemCodes.FirstConsumableCode | app/Http/Controllers/ItemController.php:135-152 | raw-material codes do not affect consumables: the first consumable gets CNS0001, from both generators |
| FormRules.ItemErrors | app/Http/Requests/StoreItemRequest.php:22-35 | each field is flagged exactly when its rule fails: name required and at most 255, type in the enumeration, category existing, supplier absent or existing, unit required and at most 50, size absent or at most 100, stock_quantity present and at least 0 |
| FormRules.OutgoingErrors | app/Http/Requests/StoreOutgoingItemRequest.php:22-31 | each field is flagged exactly when its rule fails: no_sj required and at most 100, site in the enumeration, item existing, quantity at least 1, unit required and at most 50 |
| FormRules.RequestErrors | app/Http/Requests/StoreItemRequestRequest.php:22-30 | each field is flagged exactly when its rule fails: item existing, quantity at least 1, unit required and at most 50, notes absent or at most 1000 |
| FormRules.DecisionErrors | app/Http/Controllers/ItemRequestApprovalController.php:30-33 | action is flagged unless it is approve or reject; notes are flagged when longer than 1000 |
| Controllers.Inventory.StoreItem | app/Http/Controllers/ItemController.php:67-78 | a non-manager is refused; an invalid form is refused with its fields; when the code generateItemCode returns, as written, already exists, the unique index refuses the insert and nothing changes; otherwise one item is appended under that code, with the form's columns and the opening balance as its stock; while every code of the type's prefix has four digits the store of a valid form by a manager always succeeds; the ledger invariant holds |
| Controllers.Inventory.Rows | app/Http/Controllers/ItemController.php:21-39 | the rows the item listing filters carry each item's id, code and current stock counter |
| Controllers.Inventory.StoreIncoming | app/Http/Controllers/IncomingItemController.php:64-76 | a non-manager is refused; an unknown item is refused; otherwise exactly one receipt is appended with the caller as creator, only that item's stock rises by exactly the quantity, and the ledger invariant holds |
| Controllers.Inventory.DestroyIncoming | app/Http/Controllers/IncomingItemController.php:93-102 | an unknown receipt is not found; a non-manager is refused; otherwise the receipt is removed, only its item's stock falls by its quantity, and stock turns negative exactly when it was below that quantity |
| Controllers.Inventory.StoreOutgoing | app/Http/Controllers/OutgoingItemController.php:68-89 | a non-manager is refused, then an invalid form, then a quantity above the stock with nothing recorded; otherwise one dispatch is appended with the caller as creator and only that item's stock falls by exactly the quantity; a non-negative stock stays non-negative |
| Controllers.Inventory.DestroyOutgoing | app/Http/Controllers/OutgoingItemController.php:106-115 | an unknown dispatch is not found; a non-manager is refused; otherwise the dispatch is removed and only its item's stock rises by its quantity |
| Controllers.Inventory.StoreRequest | app/Http/Controllers/ItemRequestController.php:68-77 | an invalid form is refused; otherwise one request is appended, owned by the caller, with the default status and no decision; no stock moves |
| Controllers.EditRequest | app/Http/Controllers/ItemRequestController.php:94-107 | not found exactly when no request has the id; success only for a pending request owned by the caller; forbidden otherwise |
| Controllers.Inventory.UpdateRequest | app/Http/Controllers/ItemRequestController.php:112-123 | not found, then forbidden unless pending and owned by the caller; otherwise only quantity, unit and notes of that request change; no stock moves |
| Controllers.Inventory.DestroyRequest | app/Http/Controllers/ItemRequestController.php:128-141 | not found, then forbidden unless pending and owned by the caller or the caller is a manager; otherwise that request is removed; no stock moves |
| Controllers.Inventory.Decide | app/Http/Controllers/ItemRequestApprovalController.php:15-69 | not found, then forbidden for non-managers, then already processed unless pending, then invalid action or notes, then insufficient stock for an approval; otherwise the request is approved or rejected and stamped with the caller, the clock and the notes, and an approval alone lowers its item's stock by its quantity |
| Controllers.Decided | app/Http/Controllers/ItemRequestApprovalController.php:48-62 | a decided request is approved exactly when the action was approve, is no longer pending, keeps its id, owner, item and quantity, and carries the decider, the time and the new notes |
| Controllers.Inventory.Conclude | app/Http/Controllers/ItemRequestApprovalController.php:38-65 | an approval the stock does not cover is refused with nothing changed; otherwise the decision is recorded and an approval lowers the stock by the requested quantity |
| Ledger.NewItemAccounted | app/Http/Controllers/ItemController.php:72-74 | a new item whose opening balance is its stock is accounted, and the counters of the other items stay accounted |
| Ledger.ReceiptAccounted | app/Http/Controllers/IncomingItemController.php:69-72 | appending a receipt and raising its item's counter by its quantity keeps every counter accounted |
| Ledger.ReceiptRemovalAccounted | app/Http/Controllers/IncomingItemController.php:96-98 | deleting a receipt and lowering its item's counter by its quantity keeps every counter accounted |
| Ledger.DispatchAccounted | app/Http/Controllers/OutgoingItemController.php:82-85 | appending a dispatch and lowering its item's counter keeps every counter accounted |
| Ledger.DispatchRemovalAccounted | app/Http/Controllers/OutgoingItemController.php:109-111 | deleting a dispatch and raising its item's counter keeps every counter accounted |
| Ledger.RequestFiledAccounted | app/Http/Controllers/ItemRequestController.php:68-77 | filing a request that is not approved moves no counter |
| Ledger.RequestRewrittenAccounted | app/Http/Controllers/ItemRequestApprovalController.php:46-62 | rewriting an unapproved request lowers its item's counter by its quantity exactly when the new row is approved |
| Ledger.RequestRemovalAccounted | app/Http/Controllers/ItemRequestController.php:137 | deleting a request that is not approved leaves every counter accounted |
| Ledger.AccountedDetermines | app/Models/Item.php:114-125 | the tables determine every counter: two stock vectors accounted by the same tables are equal |
| Scenarios.ReceiptRoundTrip | app/Http/Controllers/IncomingItemController.php:64-102 | recording a receipt and deleting it again leaves the receipts and every stock as they were |
| Scenarios.DispatchRoundTrip | app/Http/Controllers/OutgoingItemController.php:68-115 | recording a dispatch and deleting it again leaves the dispatches and every stock as they were |
| Scenarios.DecideTwice | app/Http/Controllers/ItemRequestApprovalController.php:25-28 | once a decision succeeds, a second decision on the same request, whatever its action, is refused as already processed |
| Scenarios.DispatchScenario | app/Http/Controllers/OutgoingItemController.php:73-85 | from 10 in stock, a dispatch of 5 goes through and leaves 5, then a dispatch of 10 is refused for insufficient stock and the 5 stay |
| Scenarios.ApprovalScenario | app/Http/Controllers/ItemRequestApprovalController.php:38-53 | with nothing in stock an approval of 3 is refused and the request stays pending (the first step is `Scenarios.EarlyApproval`); after a receipt of 5 it goes through, leaving 2 and the request approved |
| Listing.ItemIndex | app/Http/Controllers/ItemController.php:24-37 | an item is listed exactly when it matches every filled filter: name or code contains the search term, type equal, category equal |
| Listing.IncomingIndex | app/Http/Controllers/IncomingItemController.php:22-39 | a receipt is listed exactly when its item matches the search, its delivery note contains the no_sj term, and its creation day lies within both inclusive date bounds |
| Listing.OutgoingIndex | app/Http/Controllers/OutgoingItemController.php:22-43 | a dispatch is listed exactly when its item matches the search, its site is equal, its delivery note contains the no_sj term, and its creation day lies within both inclusive date bounds |
| Listing.RequestIndex | app/Http/Controllers/ItemRequestController.php:24-42 | a request is listed exactly when it passes the role confinement and every filled filter |
| Listing.UserSeesOnlyOwnRequests | app/Http/Controllers/ItemRequestController.php:24-26 | a caller with role user sees only its own requests, whatever the filters |
| Listing.RequesterFilterIgnoredForNonManagers | app/Http/Controllers/ItemRequestController.php:40-42 | the requester filter changes nothing for a caller who cannot manage inventory |
| Listing.ManagerSeesAllRequests | app/Http/Controllers/ItemRequestController.php:24-42 | a manager with no filter filled in sees every request |
| Listing.UnfilteredItemIndex | app/Http/Controllers/ItemController.php:24-37 | with no filter filled in, every item is listed in its order |
| Listing.BlankSearchIgnored | app/Http/Controllers/ItemController.php:24-29 | a blank search term selects the same items as no term |

## Left out

- Photo upload and its validation, and the `description` column's rule (it has no
  length bound), are not modelled beyond carrying the description.
- Pages, pagination, ordering by `latest()`, redirects, flash messages and the dashboard
  queries are presentation and are not modelled.
- Item update and item deletion (with its cascading deletes) are not modelled. Their
  form request, UpdateItemRequest, is not part of this model. As a result an item's id
  is its position, and items are never removed.
- Controllers.Inventory.StoreIncoming: the receipt form's rules are not part of this
  model (StoreIncomingItemRequest is not part of this model). The only check is the
  foreign key on item_id, and any integer quantity is accepted. Non-negativity is
  therefore promised only for a quantity that is not negative.
- Controllers.Inventory.UpdateRequest: the update form's rules are not part of this
  model (UpdateItemRequestRequest is not part of this model). The action takes an
  already validated quantity, unit and notes, and does not change the item.
- Controllers.Inventory.constructor: the default status of a new request comes from the
  item_requests migration, which is not part of this model. It is a parameter of the
  inventory, and must not be "approved", since a request filed approved would break
  the ledger.
- ItemCodes.IntCast: PHP's `(int)` cast is modelled only as the value of the leading
  ASCII digits. Leading whitespace, a sign, an exponent (`(int)"1e3"` is 1000) and
  saturation at PHP_INT_MAX are not modelled. The cast is only applied to codes the
  generator wrote, which are ASCII digits after the prefix.
- Integers are unbounded. The stock_quantity column is a database `integer`
  (database/migrations/2024_01_01_000004_create_items_table.php:23); overflow of that
  column, and of the quantity columns, is not modelled.
- The clock and the authenticated user are parameters. `approved_at` and `created_at`
  are the `Moment` the caller passes.
- SQL LIKE and collation are modelled as a plain, case-sensitive substring test.
  Dates compare the day of `created_at` only.
- Concurrency is not modelled: each action runs as one atomic step. The race between
  the stock check and the decrement in dispatch and approval is therefore not captured.
- The seeders and factories generate random data outside the ledger and are not
  modelled.
- Stock is meant to stay non-negative, and the dispatch and approval paths check it,
  but no constraint on the stock_quantity column enforces it, and the deletion of a
  receipt can drive stock below zero. The model follows the code and states exactly when
  this happens (`Controllers.Inventory.DestroyIncoming`).

## Findings

| source | as written | input that shows it | evidently intended | confidence | as-written member | corrected member |
|---|---|---|---|---|---|---|
| app/Http/Controllers/ItemController.php:142-152 | the last code is chosen by `ORDER BY code DESC`, a string order, and its number read back with `(int) substr(code, 3)` | stored codes RAW9999 and RAW10000: the string maximum is RAW9999, so the generator returns RAW10000 again, which the unique index on code rejects | the next code is one more than the numerically greatest number of the prefix | not executed | ItemCodes.CodeCollisionPastNineNineNineNine | ItemCodes.NextItemCodeIsFresh |

`Controllers.Inventory.StoreItem` keeps the generator as written, so the store fails
with `DuplicateCode` on the input above, as the application does. The corrected
generator `ItemCodes.NextItemCode` is proved never to collide, and to agree with the
generator as written while every code of the prefix has four digits
(`ItemCodes.GenerateAgreesWhileFourDigits`).
