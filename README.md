# OpenAPI-edu orders service, modelled in Dafny

OpenAPI-edu is a small Spring Boot service that manages customer orders over
REST. Orders live in an in-memory `HashMap<Long, Order>` owned by
`OrdersRepositoryImpl`, seeded at start-up with the orders 1, 2 and 3.
`OrdersService` lists, creates, patches, approves, delivers and deletes
orders, with every id arriving as text and going through `Long.parseLong`.
It also exports the store as CSV records and decodes uploaded CSV records.
`RestExceptionHandler` declares four handlers that turn an exception escaping a
controller into an `application/problem+json` response: 400, 404, 409 or 500,
each with a fixed title and detail. For the exceptions the service throws, one
of these four answers.

This project models those three classes and proves what they do.

- `orders_repository.dfy` (module `OrdersRepository`). The store is a class
  `OrdersRepositoryImpl` with a `map<int, Order>` field. `Init` and `AddOrder`
  update it. `AddOrder` is `put`, handing back the replaced value. The
  invariant "every order is filed under its own id" is kept.
- `orders_service.dfy` (module `OrdersService`). Each state-changing operation
  is a spec function from the store before the call to a `Step`: the store
  after it, plus the value returned or the fault thrown. The class
  `OrdersService` holds the repository. Its methods change the repository as
  the Java code does and are proved equal to those functions. Lemmas cover id
  assignment by size, id reuse after a delete, idempotent delete, and the
  faults on missing ids.
- `orders_csv.dfy` (module `OrdersCsv`). It covers the export record of an
  order, the positional decoding of an import record and the import loop. It
  proves:
  - the integer columns read back;
  - what an import skips, decodes and fails on;
  - the export body round-trips through the import, except for `complete`;
  - a whole export, header included, never imports.
- `java_long.dfy` (module `JavaLong`). It models `Long.parseLong` and
  `Long.toString` on 64-bit values and proves their round trip.
- `java_exceptions.dfy` and `rest_exception_handler.dfy`. These cover the
  exception classes involved with their superclass chains, and the four
  handlers. Spring resolves a handler by the nearest declared superclass;
  here that is a search along the chain. The resolved status is proved to
  follow the hierarchy.
- `error_responses.dfy` (module `ErrorResponses`). It ties each service
  fault to the status the handler answers with:
  - a malformed id gives 400;
  - patching a missing id gives 404;
  - approving or delivering a missing id gives 500;
  - re-uploading an export gives 400.

Library behaviour whose source is not part of this model is passed in as
parameters (an `Environment`). This covers printing and parsing
`OffsetDateTime`, `StatusEnum.toString` and `valueOf`, and the JVM system
properties read by `Boolean.getBoolean`.

The generated model class `Order` is not part of this model. A new `Order`
here has every field unset, and only the setters the service calls fill it.

## Model

| member | source | states |
|---|---|---|
| JavaLong.ParseLong | src/main/java/com/arwka/openapiedu/service/OrdersService.java:79-81 | `Long.parseLong`: a result only for an optional sign followed by decimal digits whose value fits in a `long`; anything else is the `NumberFormatException` path |
| JavaLong.LongToString | src/main/java/com/arwka/openapiedu/service/OrdersService.java:150-152 | the text of a `Long` column: non-empty, a leading minus exactly for negative values, digits otherwise |
| JavaLong.DigitsRoundTrip | src/main/java/com/arwka/openapiedu/service/OrdersService.java:198-200 | reading back the digits written for a natural number gives that number |
| JavaLong.LongRoundTrip | src/main/java/com/arwka/openapiedu/service/OrdersService.java:198-200 | every `long` printed by `toString` parses back to itself |
| JavaLong.NonNumericTexts | src/main/java/com/arwka/openapiedu/service/OrdersService.java:143 | the `"null"` sentinel, the header name `"id"`, the empty text and a lone sign never parse |
| OrdersRepository.Lookup | src/main/java/com/arwka/openapiedu/service/OrdersService.java:82 | `HashMap.get`: null exactly for a key that is not stored; under the store invariant the order found under a key carries that key as its id |
| OrdersRepository.Put | src/main/java/com/arwka/openapiedu/persistent/repository/impl/OrdersRepositoryImpl.java:43-45 | after `put` the order is stored under its id and every other key keeps its entry; the size grows by one exactly when the id was new; the keys-match-ids invariant is kept |
| OrdersRepository.Seeded | src/main/java/com/arwka/openapiedu/persistent/repository/impl/OrdersRepositoryImpl.java:22-34 | the seeded store holds exactly the keys 1, 2, 3, each an order with only that id set, filed under its own id |
| OrdersRepository.OrdersRepositoryImpl.constructor | src/main/java/com/arwka/openapiedu/persistent/repository/impl/OrdersRepositoryImpl.java:16-34 | a repository built and initialised holds exactly the seeded store and satisfies its invariant |
| OrdersRepository.OrdersRepositoryImpl.Init | src/main/java/com/arwka/openapiedu/persistent/repository/impl/OrdersRepositoryImpl.java:22-34 | `init` puts the orders 1, 2, 3 in turn onto whatever was there, keeping the invariant |
| OrdersRepository.OrdersRepositoryImpl.AddOrder | src/main/java/com/arwka/openapiedu/persistent/repository/impl/OrdersRepositoryImpl.java:43-45 | `addOrder` leaves the map as `put` does and returns the entry previously under the order's id, or none |
| OrdersRepository.SeededAfterInit | src/main/java/com/arwka/openapiedu/persistent/repository/impl/OrdersRepositoryImpl.java:31-33 | the three puts of `init` on the empty map give exactly the seeded store |
| OrdersRepository.PutSizeIff | src/main/java/com/arwka/openapiedu/persistent/repository/impl/OrdersRepositoryImpl.java:44 | the map grows by one if and only if the id was not already a key |
| OrdersRepository.SortedKeys | src/main/java/com/arwka/openapiedu/service/OrdersService.java:51 | the keys in iteration order: each key exactly once, strictly ascending |
| OrdersRepository.Listing | src/main/java/com/arwka/openapiedu/service/OrdersService.java:50-52 | `values().stream().toList()` holds as many orders as the map has entries, each a stored order, and every stored order appears |
| OrdersService.Create | src/main/java/com/arwka/openapiedu/service/OrdersService.java:60-68 | `createNewOrder` stores the new order (input's product and quantity, nothing else) under id size + 1, leaves other ids alone, returns what was under that id before; the size stays the same exactly when that id was taken |
| OrdersService.Patched | src/main/java/com/arwka/openapiedu/service/OrdersService.java:84-86 | a patch overwrites exactly status, complete and quantity with the edit's values, absent ones included, and keeps id, product and date |
| OrdersService.Patch | src/main/java/com/arwka/openapiedu/service/OrdersService.java:77-93 | a non-numeric id throws `NumberFormatException` and a missing one `NoSuchElementException`, both with the store unchanged; otherwise the patched order is stored and returned and no other entry changes |
| OrdersService.SetStatus | src/main/java/com/arwka/openapiedu/service/OrdersService.java:101-123 | approve/deliver: a non-numeric id is `NumberFormatException`, a missing id a null dereference, both with the store unchanged; otherwise only that order's status changes and the updated order is returned |
| OrdersService.Delete | src/main/java/com/arwka/openapiedu/service/OrdersService.java:130-134 | only a non-numeric id fails; otherwise exactly that key is gone (absent or not) and every remaining entry is unchanged |
| OrdersService.OrdersService.constructor | src/main/java/com/arwka/openapiedu/service/OrdersService.java:35 | the service works on the repository it is given |
| OrdersService.OrdersService.GetOrders | src/main/java/com/arwka/openapiedu/service/OrdersService.java:45-48 | the filter arguments are ignored: the result lists every stored order and equals `getOrdersWithoutParams()` |
| OrdersService.OrdersService.GetOrdersWithoutParams | src/main/java/com/arwka/openapiedu/service/OrdersService.java:50-52 | lists every stored order exactly as the map holds them |
| OrdersService.OrdersService.CreateNewOrder | src/main/java/com/arwka/openapiedu/service/OrdersService.java:60-68 | the repository and the returned value are those `Create` gives for the store before the call; the invariant is kept |
| OrdersService.OrdersService.PatchOrder | src/main/java/com/arwka/openapiedu/service/OrdersService.java:77-93 | the repository and the outcome are those `Patch` gives for the store before the call; the invariant is kept |
| OrdersService.OrdersService.ApproveOrder | src/main/java/com/arwka/openapiedu/service/OrdersService.java:101-108 | the repository and the outcome are those `SetStatus(…, Approved)` gives; the invariant is kept |
| OrdersService.OrdersService.DeliverOrder | src/main/java/com/arwka/openapiedu/service/OrdersService.java:116-123 | the repository and the outcome are those `SetStatus(…, Delivered)` gives; the invariant is kept |
| OrdersService.OrdersService.DeleteOrder | src/main/java/com/arwka/openapiedu/service/OrdersService.java:130-134 | the repository and the outcome are those `Delete` gives; the invariant is kept |
| OrdersService.BuildCsvBody | src/main/java/com/arwka/openapiedu/service/OrdersService.java:146-157 | the loop builds exactly one export record per listed order, in listing order |
| OrdersService.OrdersService.GetOrdersInCsv | src/main/java/com/arwka/openapiedu/service/OrdersService.java:141-157 | the records printed are the header followed by the export record of every stored order in listing order |
| OrdersService.ReadOrders | src/main/java/com/arwka/openapiedu/service/OrdersService.java:194-208 | the decoding loop ends with exactly the outcome of `ImportRecords`: the decoded orders, or the fault of the first failing record |
| OrdersService.OrdersService.AddOrdersFromCsv | src/main/java/com/arwka/openapiedu/service/OrdersService.java:185-213 | succeeds exactly when the records import and otherwise fails with the import's fault; it modifies nothing |
| OrdersService.DeleteIsIdempotent | src/main/java/com/arwka/openapiedu/service/OrdersService.java:130-134 | deleting an id twice leaves the same store and outcome as deleting it once |
| OrdersService.StatusChangeOnMissingIdIsNullDeref | src/main/java/com/arwka/openapiedu/service/OrdersService.java:101-108 | on a parseable id that is not stored, approve and deliver fail with a null dereference while patch fails with `NoSuchElementException`; none changes the store |
| OrdersService.IdsUpToSize | src/main/java/com/arwka/openapiedu/service/OrdersService.java:63 | a store holding exactly the ids 1..n has size n, so `size + 1` is the next id |
| OrdersService.CreateOnRange | src/main/java/com/arwka/openapiedu/service/OrdersService.java:60-68 | on a store holding exactly 1..n, a create adds id n+1 with the new order, keeps every other entry and returns none |
| OrdersService.SequentialCreatesTakeConsecutiveIds | src/main/java/com/arwka/openapiedu/service/OrdersService.java:60-68 | creates in a row on a store holding 1..n take the ids n+1, n+2, … in order and overwrite nothing |
| OrdersService.CreatesOnEmptyStore | src/main/java/com/arwka/openapiedu/service/OrdersService.java:63 | on an empty store the k-th created order gets id k |
| OrdersService.DeleteThenCreateOverwrites | src/main/java/com/arwka/openapiedu/service/OrdersService.java:63 | from the seeded store, deleting "2" then creating assigns id 3 again: order 3 is overwritten and returned, two orders remain |
| OrdersService.SeededExportDoesNotImport | src/main/java/com/arwka/openapiedu/service/OrdersService.java:148-156 | even without its header, the export of the seeded store does not import: the product id column reads "null" |
| OrdersService.NextFreeId | src/main/java/com/arwka/openapiedu/service/OrdersService.java:63 | corrected id choice: a positive id above every stored one, hence not stored |
| OrdersService.CreateFresh | src/main/java/com/arwka/openapiedu/service/OrdersService.java:60-68 | corrected create: a fresh id, the store grows by exactly that entry, nothing is overwritten, and the saved order is returned |
| OrdersService.CreateFreshAgreesOnRange | src/main/java/com/arwka/openapiedu/service/OrdersService.java:60-68 | on a store holding exactly 1..n the corrected create stores what the code stores; the code returns none where the fix returns the saved order |
| OrdersService.DeleteThenCreateFreshKeepsOrders | src/main/java/com/arwka/openapiedu/service/OrdersService.java:63 | with the correction, deleting "2" then creating keeps order 3 and adds id 4 |
| OrdersService.IdsOf | src/main/java/com/arwka/openapiedu/service/OrdersService.java:198 | every order of the list contributes its id |
| OrdersService.IdsOfOnlyIds | src/main/java/com/arwka/openapiedu/service/OrdersService.java:198 | every id in the set is carried by some order of the list |
| OrdersService.PutAll | src/main/java/com/arwka/openapiedu/service/OrdersService.java:205 | storing decoded orders in turn leaves exactly the old keys plus the orders' ids |
| OrdersService.PutAllKeepsKeysMatchIds | src/main/java/com/arwka/openapiedu/service/OrdersService.java:205 | storing orders one after another keeps every order filed under its own id |
| OrdersService.PutAllKeepsLastWriter | src/main/java/com/arwka/openapiedu/service/OrdersService.java:205 | when several orders share an id, the last one is what stays stored |
| OrdersService.PutAllFrame | src/main/java/com/arwka/openapiedu/service/OrdersService.java:205 | an id no stored order carries keeps its previous entry |
| OrdersService.ImportInto | src/main/java/com/arwka/openapiedu/service/OrdersService.java:185-213 | corrected import: a failing import leaves the store and reports the fault; a successful one leaves the store `PutAll` gives for the decoded orders, whose keys are the old keys plus the decoded ids, and keeps the invariant |
| OrdersService.ImportIntoStoresLastWriter | src/main/java/com/arwka/openapiedu/service/OrdersService.java:185-213 | after a corrected import, the order under an id is the last decoded order carrying it, and an id no decoded order carries keeps its old entry |
| OrdersCsv.LongColumn | src/main/java/com/arwka/openapiedu/service/OrdersService.java:150-152 | an integer column reads "null" exactly when the field is absent |
| OrdersCsv.LongColumnReadsBack | src/main/java/com/arwka/openapiedu/service/OrdersService.java:150-152 | a present `long` column parses back to the field; an absent one does not parse |
| OrdersCsv.Row | src/main/java/com/arwka/openapiedu/service/OrdersService.java:148-156 | every export record has the header's six fields |
| OrdersCsv.RowShowsAbsentAsNull | src/main/java/com/arwka/openapiedu/service/OrdersService.java:150-155 | an absent field is written as "null"; a present integer or `complete` never is |
| OrdersCsv.RowIntegersReadBack | src/main/java/com/arwka/openapiedu/service/OrdersService.java:150-152 | the id, product and quantity columns parse back to the order's values; an absent product does not parse |
| OrdersCsv.ExportBody | src/main/java/com/arwka/openapiedu/service/OrdersService.java:145-157 | one record per listed order, each of the header's width |
| OrdersCsv.Export | src/main/java/com/arwka/openapiedu/service/OrdersService.java:143-169 | what is printed: the header first, then one record per order, every record of the header's width |
| OrdersCsv.ExportBodyOfRows | src/main/java/com/arwka/openapiedu/service/OrdersService.java:146-157 | a list holding each order's record, in order, is the export body |
| OrdersCsv.GetBoolean | src/main/java/com/arwka/openapiedu/service/OrdersService.java:203 | `Boolean.getBoolean` is true only for a name set as a system property; with none set it is always false |
| OrdersCsv.ParseBoolean | src/main/java/com/arwka/openapiedu/service/OrdersService.java:203 | corrected reading of `complete`, as `Boolean.parseBoolean`: true exactly when the text, lower-cased, is "true" |
| OrdersCsv.ParseBooleanReadsBack | src/main/java/com/arwka/openapiedu/service/OrdersService.java:203 | the corrected reading gives back the boolean the export wrote |
| OrdersCsv.GetBooleanDropsTrue | src/main/java/com/arwka/openapiedu/service/OrdersService.java:203 | as written, a `complete` written as "true" reads back false unless a system property named "true" is set |
| OrdersCsv.DecodeRecord | src/main/java/com/arwka/openapiedu/service/OrdersService.java:196-205 | a record yields an order exactly when three integers parse, it has six fields and date and status parse; the order's fields are those values, with `complete` from `Boolean.getBoolean`; the fault is that of the first failing step in source order: a bad id, product id or quantity is `NumberFormatException`; a record that ends before the date, status or complete field is `IndexOutOfBoundsException`; a rejected date is `DateTimeParseException`; a rejected status name is `IllegalArgumentException` |
| OrdersCsv.LongRecords | src/main/java/com/arwka/openapiedu/service/OrdersService.java:195 | the records an import keeps all have more than two fields, and no more records than given |
| OrdersCsv.ImportRecords | src/main/java/com/arwka/openapiedu/service/OrdersService.java:194-208 | the import loop: on success one order per record of more than two fields, each carrying an id |
| OrdersCsv.ImportSucceedsIffEveryRecordDecodes | src/main/java/com/arwka/openapiedu/service/OrdersService.java:194-208 | an import succeeds if and only if every record of more than two fields decodes |
| OrdersCsv.ImportYieldsDecodedOrders | src/main/java/com/arwka/openapiedu/service/OrdersService.java:194-208 | a successful import yields one order per kept record, each the decoding of that record, in record order |
| OrdersCsv.ImportFailsAtFirstFailingRecord | src/main/java/com/arwka/openapiedu/service/OrdersService.java:194-208 | the first failing record ends the import with its own fault |
| OrdersCsv.ImportIgnoresShortRecords | src/main/java/com/arwka/openapiedu/service/OrdersService.java:195 | dropping records of at most two fields beforehand does not change the import |
| OrdersCsv.ExportDoesNotImport | src/main/java/com/arwka/openapiedu/service/OrdersService.java:191-198 | a complete export, header first, fails to import with `NumberFormatException` on the header's "id" |
| OrdersCsv.ExportWithAbsentProductIdDoesNotImport | src/main/java/com/arwka/openapiedu/service/OrdersService.java:199 | a body whose first order lacks a product id fails with `NumberFormatException` |
| OrdersCsv.RowRoundTrip | src/main/java/com/arwka/openapiedu/service/OrdersService.java:196-203 | a fully set order whose date and status read back decodes from its record to itself, except that `complete` goes through `Boolean.getBoolean` |
| OrdersCsv.BodyRoundTrip | src/main/java/com/arwka/openapiedu/service/OrdersService.java:194-205 | the export body of such orders imports back to the same orders in the same order, up to `complete` |
| OrdersCsv.ImportedCompleteIsFalseByDefault | src/main/java/com/arwka/openapiedu/service/OrdersService.java:203 | with no system properties set, every imported order has `complete` false |
| OrdersCsv.StatusTextNotAcceptedFails | src/main/java/com/arwka/openapiedu/service/OrdersService.java:202 | a status whose written text `valueOf` rejects makes that order's record fail with `IllegalArgumentException` |
| JavaExceptions.Ancestors | src/main/java/com/arwka/openapiedu/ui/controller/exceptions/RestExceptionHandler.java:21-63 | the superclass chain Spring searches: it starts at the class itself, has no repeats and ends at `Exception`, which the catch-all handler is declared for |
| RestExceptionHandler.DeclaredFor | src/main/java/com/arwka/openapiedu/ui/controller/exceptions/RestExceptionHandler.java:21-63 | the handler found for a class has it in its annotation; no handler is found only when no annotation names it |
| RestExceptionHandler.ResolveFollowsHierarchy | src/main/java/com/arwka/openapiedu/ui/controller/exceptions/RestExceptionHandler.java:21-75 | the resolved handler is the illegal-argument one iff the class is an `IllegalArgumentException`, the not-found one iff it is a `NoSuchElementException` or `NotFoundException`, the illegal-state one iff it is an `IllegalStateException` |
| RestExceptionHandler.Respond | src/main/java/com/arwka/openapiedu/ui/controller/exceptions/RestExceptionHandler.java:21-75 | each handler answers `application/problem+json` with the problem's status equal to the HTTP status, and each handler has its own status |
| RestExceptionHandler.Resolve | src/main/java/com/arwka/openapiedu/ui/controller/exceptions/RestExceptionHandler.java:21-75 | the resolved handler is declared for the nearest class along the superclass chain that any handler is declared for |
| RestExceptionHandler.FirstHandledIsNearest | src/main/java/com/arwka/openapiedu/ui/controller/exceptions/RestExceptionHandler.java:21-75 | when some class of a chain is declared for, the search picks the nearest such class's handler |
| RestExceptionHandler.Handle | src/main/java/com/arwka/openapiedu/ui/controller/exceptions/RestExceptionHandler.java:21-75 | every response is `application/problem+json` with the problem's status equal to the HTTP status; 400, 404, 409 exactly for those class families and 500 for every other exception; each status comes with its handler's title |
| RestExceptionHandler.HandlerTitles | src/test/java/com/arwka/openapiedu/ui/controller/exceptions/RestExceptionHandlerTest.java:32-86 | the titles of the four handlers for the exceptions their tests throw |
| ErrorResponses.StatusFor | src/main/java/com/arwka/openapiedu/ui/controller/exceptions/RestExceptionHandler.java:21-75 | a malformed number or unknown status name is 400, a missing element 404, a null dereference, short record or bad date 500; no service fault is 409 |
| ErrorResponses.FaultStatus | src/main/java/com/arwka/openapiedu/ui/controller/exceptions/RestExceptionHandler.java:21-75 | the status answered for each service fault, fault by fault |
| ErrorResponses.PatchErrorResponse | src/main/java/com/arwka/openapiedu/service/OrdersService.java:77-93 | a failed patch leaves the store and answers 400 for a non-numeric id, 404 for a missing one |
| ErrorResponses.StatusChangeErrorResponse | src/main/java/com/arwka/openapiedu/service/OrdersService.java:101-123 | a failed approve or deliver leaves the store and answers 400 for a non-numeric id, 500 (not 404) for a missing one |
| ErrorResponses.DeleteErrorResponse | src/main/java/com/arwka/openapiedu/service/OrdersService.java:130-134 | delete fails exactly for a non-numeric id, leaving the store and answering 400 |
| ErrorResponses.DecodeFaults | src/main/java/com/arwka/openapiedu/service/OrdersService.java:198-203 | a record fails only with a malformed number, a short record, a bad date or a bad status name |
| ErrorResponses.ImportFaults | src/main/java/com/arwka/openapiedu/service/OrdersService.java:194-208 | a failed import fails with one of those record faults |
| ErrorResponses.RecordErrorResponse | src/main/java/com/arwka/openapiedu/service/OrdersService.java:198-203 | a failing record answers 400 when an integer field or the status name is rejected, and 500 when the record is too short or the date is rejected |
| ErrorResponses.ImportErrorResponse | src/main/java/com/arwka/openapiedu/service/OrdersService.java:194-208 | an upload whose already-split records fail to decode answers 400 or 500, never 404 or 409 |
| ErrorResponses.ReuploadedExportIsBadRequest | src/main/java/com/arwka/openapiedu/service/OrdersService.java:191-198 | uploading a file the export produced fails and answers 400 |

## Left out

- `OrdersController` routing, HTTP headers and the controller's choice between the two listing calls: they only forward to the service.
- `SecurityConfiguration`: authentication and password hashing are framework calls with no logic of the service's own.
- Byte streams, the CSV printer and the CSV parser, including quoting per section 2 of RFC 4180: the model works on records already split into fields.
- The `IOException` paths: export writes to an in-memory stream, but import reads the HTTP request's stream, and a read failure there is wrapped in `RuntimeException` (answered 500). Faults from reading and splitting the upload are not modelled, including the parser's own wrapped read errors, which some versions of the CSV library raise as `IllegalStateException` (answered 409); the import starts from records already split into fields.
- The handlers `RestExceptionHandler` inherits from `ResponseEntityExceptionHandler`, which answer Spring MVC's own exceptions with other statuses: the service does not throw those.
- Logging and the `System.out` lines of the handlers: they produce no result.
- Concurrency: the `HashMap` is unsynchronised and the model runs calls one at a time.
- `OffsetDateTime` printing and parsing, `StatusEnum.toString` and `valueOf`, and the system properties: they are parameters (`Environment`), not concrete behaviour.
- HashMap iteration order: it is taken to be ascending id. The proofs about listings use only that each stored order appears once.
- In-place mutation and aliasing: the service mutates the stored `Order` object and then puts it back. The model replaces the map entry with an updated value. Because every stored order is its own object, the two agree, but an `Order` a caller held before a patch is not shown changing.
- OrdersRepository.OrdersRepositoryImpl.AddOrder: requires the order to carry an id; a null id (which `HashMap` would accept as a key) never reaches `addOrder` from the service.
- The generated `Order` class is not modelled. Its fields are assumed to start null, so `status` and `complete` stay unset until a setter runs, and the seeded orders carry only an id.
- JavaLong.ParseLong: accepts ASCII digits only; `Long.parseLong` also accepts other Unicode decimal digits.
- `Long` overflow of `size() + 1L` in `createNewOrder` is not modelled: a store cannot hold 2^63 orders.
- OrdersRepository.Listing: states that the list holds the stored orders, not the order in which `HashMap` yields them.

## Findings

| source | as written | input that shows it | evidently intended | confidence | as-written member | corrected member |
|---|---|---|---|---|---|---|
| src/main/java/com/arwka/openapiedu/service/OrdersService.java:63 | the new id is `size() + 1` | seeded store {1, 2, 3}; `deleteOrder("2")`, then `createNewOrder`: id 3 is assigned again and order 3 is overwritten | an id no stored order has | not executed | OrdersService.DeleteThenCreateOverwrites | OrdersService.CreateFresh |
| src/main/java/com/arwka/openapiedu/service/OrdersService.java:67 | returns what `put` replaced, which is null for a new id | seeded store; `createNewOrder` returns null rather than the order with id 4 | return the saved order, as its Javadoc says and as the controller test expects an `id` in the response | not executed | OrdersService.CreateOnRange | OrdersService.CreateFresh |
| src/main/java/com/arwka/openapiedu/service/OrdersService.java:185-213 | decoded orders are collected in a local list that is then dropped | any upload that decodes: the store is unchanged afterwards | add the decoded orders to the store, as the Javadoc and the log line say | not executed | OrdersService.OrdersService.AddOrdersFromCsv | OrdersService.ImportInto |
| src/main/java/com/arwka/openapiedu/service/OrdersService.java:203 | `complete` is read with `Boolean.getBoolean`, a system-property lookup | a record whose `complete` field is "true", with no system properties set, imports with `complete` false | `Boolean.parseBoolean` of the field's text | not executed | OrdersCsv.GetBooleanDropsTrue | OrdersCsv.ParseBooleanReadsBack |
