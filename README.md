# Seat reservation for class orders, in Dafny

This project models the order-placement handler of a small class-booking
back end (`POST /api/orders` in `routes/orderRoutes.js`). An order names one
or more classes and a seat count for each. The handler has to take the seats
of every line item, or of none of them. The document store only offers
single-document atomic updates, so the handler runs a hand-written saga:

1. **Validation.** The name, the phone and a non-empty `lessonIDs` array are
   required. Anything else gets a 400 before any store access.
2. **Normalisation.** `spaces` is coerced to one positive seat count per
   lesson (`lessonPairs`). A non-numeric, zero or negative entry becomes 1.
   A missing `spaces`, or one whose length differs from `lessonIDs`, gives 1
   seat each.
3. **Reservation.** Items are taken in request order. Each one is a guarded
   decrement (`findOneAndUpdate` with `availableInventory >= requested`). Each
   success is pushed onto the `decremented` ledger.
4. **Outcome.** On the first item whose guard fails, the handler re-reads that
   class for the report. It then replays the ledger as unconditional
   increments; one that throws is skipped and the others still run. It
   answers 400 naming the class. If every item succeeds, it inserts one order
   document and answers 201.

Files and modules:

- `wrappers.dfy`, module `Wrappers`: `Option`.
- `inventory.dfy`, module `Inventory`: the `classes` collection as a map from
  class id to `availableInventory`. It holds the effect of a sequence of
  guarded decrements (`Debit`), of increments (`Credit`) and the seats asked
  of each class (`Demand`). `Fits` says that every decrement of a sequence
  finds its guard true, and `FailsAt` names the first one that does not.
  `Restored` and `Lost` split a ledger by which restoring increments threw.
  The lemmas state all-or-nothing, compensation, bounds and seat totals.
- `order_request.dfy`, module `OrderRequest`: the request body, validation
  (`IsValid`) and normalisation (`SpacesArr`, `LessonPairs`, `Normalise`).
- `storage.dfy`, module `Storage`: class `Database`, with the `classes` and
  `orders` collections as fields. It has one method per driver call the
  handler makes.
- `order_routes.dfy`, module `OrderRoutes`: the handler `PlaceOrder`, the
  reservation loop `Reserve`, the failure block `ReportShortage` and the
  rollback loop `RollBack`.
- `scenarios.dfy`, module `Scenarios`: concrete calls of `PlaceOrder` whose
  outcomes follow from its contract alone. They cover the same class asked
  for [2, 2] with 3 seats, a second class that is short, a missing phone,
  and one order placed twice against seats for exactly one.

Store calls that can throw are parameters. A `Faults` value says, for one
request, whether the connection fails, which decrements throw, whether the
diagnostic re-read throws, which ledger entries' increments throw, and whether
the insert throws. The creation time `createdAt` is the parameter `now`.

Two behaviours of the code are worth stating on their own:

- A decrement that throws in the middle of the loop, or an insert that throws
  after every reservation succeeded, reaches the handler's `catch` and ends
  in a 500. Nothing is compensated: the seats already taken stay taken.
  `PlaceOrder` states that a 500 after validation happens exactly at the
  first throwing decrement or at a throwing insert, and what the table holds
  then. A failed insert is reported like any other server error.
- `connectDB()` runs before validation, so a connection failure answers 500
  even for an invalid body.

## Model

| member | source | states |
|---|---|---|
| `OrderRequest.ValidationRejects` | routes/orderRoutes.js:31-34 | an order is refused exactly when the name or the phone is missing or empty, or `lessonIDs` is not an array or is empty |
| `Inventory.Withdraw` | routes/orderRoutes.js:56-57 | the decrement lowers the named class by exactly the requested seats, leaves every other class unchanged, and leaves a missing class missing |
| `Inventory.Restore` | routes/orderRoutes.js:79-80 | the restoring increment raises the named class by exactly the requested seats, leaves every other class unchanged, and does not create a missing class |
| `OrderRequest.SpacesArr` | routes/orderRoutes.js:37-40 | one count per lesson and none is zero; a missing `spaces` or one whose length differs from `lessonIDs` gives all ones |
| `OrderRequest.LessonPairs` | routes/orderRoutes.js:43-47 | the pairs keep the lessons' ids in request order and every requested count is at least 1 |
| `OrderRequest.Normalise` | routes/orderRoutes.js:37-47 | a valid body yields exactly one line item per lesson, and at least one |
| `OrderRequest.NormaliseGrants` | routes/orderRoutes.js:37-47 | item i asks for the positive integer given at position i of a matching `spaces`, and for 1 in every other case (non-numeric, zero, negative, missing or mismatched `spaces`) |
| `Storage.Database.DecrementIfAvailable` | routes/orderRoutes.js:55-59 | the guarded decrement lowers the class by exactly `amount` iff it exists and holds at least `amount`; otherwise, or on a throw, nothing changes; the count it returns is never negative |
| `Storage.Database.FindAvailable` | routes/orderRoutes.js:63-68 | the re-read yields the class's current count, or nothing when the class is missing or the read throws |
| `OrderRoutes.ReportedAvailable` | routes/orderRoutes.js:71 | the reported `available` is the re-read count, or 0 when the class is missing or the re-read threw |
| `Storage.Database.Increment` | routes/orderRoutes.js:78-81 | the restoring increment raises an existing class by exactly `amount`, leaves a missing one alone, and changes nothing when it throws |
| `Storage.Database.InsertOrder` | routes/orderRoutes.js:109 | the order document is appended to `orders`, or nothing changes when the insert throws |
| `OrderRoutes.RollBack` | routes/orderRoutes.js:76-86 | every ledger entry is replayed in order; the table gains exactly the entries whose increment did not throw, so one failed increment does not stop the rest |
| `OrderRoutes.ReportShortage` | routes/orderRoutes.js:61-86 | the reported count comes from the state before rollback, and the rollback runs whether or not the re-read threw |
| `OrderRoutes.Reserve` | routes/orderRoutes.js:49-98 | the loop ends with every guard held and the table debited by all items, or at the first failing item with only the lost restores missing, or at a throwing decrement with the earlier decrements kept; it stops at the first throwing decrement and only there, runs every item when it reserves them all, and no counter goes below zero |
| `OrderRoutes.PlaceOrder` | routes/orderRoutes.js:22-118 | an invalid body or no connection leaves the store untouched; a shortage names the first failing item, its request and the re-read count, and restores every class (exactly, when no increment throws); success inserts exactly one order holding the normalised ids and seats, each class down by the seats asked of it, total seats removed equal to the sum of `spaces`; with no throwing decrement, a 400 shortage happens iff the items do not fit; after validation, a 500 happens exactly at the first throwing decrement (earlier reservations kept) or at a throwing insert after all reservations, and a 201 only when the insert did not throw |
| `Inventory.DebitAt` | routes/orderRoutes.js:52-59 | after the decrements of a ledger, each class is down by exactly the sum of the seats the ledger asked of it |
| `Inventory.CreditAt` | routes/orderRoutes.js:76-86 | after the increments of a ledger, each class is up by exactly the sum of the seats the ledger names for it |
| `Inventory.CreditUndoesDebit` | routes/orderRoutes.js:76-86 | replaying the whole ledger as increments restores the table exactly, including when one class appears more than once |
| `Inventory.FitsIffCovers` | routes/orderRoutes.js:52-61 | the in-order guarded decrements all succeed iff every named class exists and holds the total asked of it across the order (3 seats against [2, 2] fails) |
| `Inventory.FitsPrefix` | routes/orderRoutes.js:52-61 | if an order fits, every prefix of it fits |
| `Inventory.FailsAtUnique` | routes/orderRoutes.js:52-61 | the first failing item is unique, and an order with a failing item does not fit |
| `Inventory.FitsKeepsNonNegative` | routes/orderRoutes.js:55-59 | decrements whose guards all held never drive a non-negative counter below zero |
| `Inventory.CreditKeepsNonNegative` | routes/orderRoutes.js:78-81 | increments of positive amounts never drive a counter below zero |
| `Inventory.RollbackKeepsNonNegative` | routes/orderRoutes.js:76-86 | after a partial rollback of a ledger whose guards held, no counter is below zero |
| `Inventory.Lost` | routes/orderRoutes.js:83-85 | when no restoring increment throws, no ledger entry is lost |
| `Inventory.DemandSplit` | routes/orderRoutes.js:76-86 | every ledger entry is either restored or lost, so the seats of a class split between the two |
| `Inventory.RollbackLeavesOnlyLost` | routes/orderRoutes.js:76-86 | after a best-effort rollback, the table equals the table before the order less exactly the entries whose increment threw |
| `Inventory.ShortageOutcome` | routes/orderRoutes.js:61-93 | when item k is the first to fail, the order does not fit, and the rollback of the items before it leaves the table short of exactly the lost entries with no counter below zero |
| `Inventory.SecondAttemptNeedsTwice` | routes/orderRoutes.js:55-59 | the same order can succeed twice in a row only if every class it names had twice the seats asked of it |
| `Inventory.TotalDebit` | routes/orderRoutes.js:100-105 | when every named class exists, the seats removed from the whole table equal the sum of the order's `spaces` |

## Left out

- The `GET /` handler (lines 10-19) only lists the `orders` collection; it is not modelled.
- The `ObjectId` conversion at line 45 can throw on an id string that is not a valid ObjectId; ids are opaque strings here and every id converts. Two strings that name the same ObjectId (the upper- and lower-case spellings of one 24-digit hex id) are two different classes in the model, while the code treats them as one class, so such an order is not seen as naming the same class twice.
- Class titles (line 70), log lines and the wording of error messages are not modelled. The shortage response carries the id, the requested count and the available count.
- A class document without an `availableInventory` field (`?? 0` at line 71) is not modelled: every class in the table has an integer count.
- JavaScript number coercion is reduced to integers or "not a number": fractional counts such as 2.5, and `Number` on booleans, `null` or strings, are not modelled. `name` and `phone` are strings or absent; other JSON values are not modelled.
- The `_id` the store assigns to the inserted order, and the JSON response shape, are not modelled.
- Concurrency: each driver call is one atomic step on the table. Interleavings of concurrent requests are not modelled, so the model does not show how concurrent orders interact.
- The model reads `result.value` at line 61 as "the updated document, or null when nothing matched". That is the result shape of `findOneAndUpdate` in MongoDB Node driver releases before 6, or with `includeResultMetadata: true`. Under the default of driver 6 and later, `result` is the document itself: every successful decrement would then read as a shortage with its seats kept and no ledger entry, and a decrement with no match would throw on `null.value` and answer 500 with no rollback. The driver version is not part of this model, and that behaviour is not modelled.
- A driver call that throws is modelled as having no effect. A call that took effect and then reported an error is not modelled.
- Express routing, the database connection (`dbcont.js`), `server.js`, the seed script and the Mongoose schema are outside the model.
