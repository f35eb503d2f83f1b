# Product purchase and customer registry, modelled in Dafny

Two services of an e-commerce back end, each over its own keyed record store.

The **product service** keeps a table of products keyed by an integer id. It
creates a product, finds one by id, lists them all, and buys a batch of
purchase lines in one transaction. A purchase extracts the requested ids and
runs the derived query `findAllByIdInOrderById` (the stored rows whose id is
listed, ordered by id). It refuses the batch when the query returns fewer rows
than there are lines, and sorts the lines by product id so that the i-th line
and the i-th row name the same product. It then walks both lists in lockstep:
each line is checked against its product's stock, the product is decremented
and saved, and a confirmation is collected. Every failure rolls the whole
transaction back.

The **customer service** keeps customers keyed by a string id. It creates,
updates, tests for, finds, lists and deletes them. An update fetches the
customer and merges the request into it: a name or the email is overwritten
only by a value that is not blank, and the address only by a present one.

Modules:

- `Results` (`results.dfy`): `Option`, `Result` and `Outcome` stand for Java's
  `Optional`, for value-or-exception and for void-or-exception.
- `Collections` (`collections.dfy`): distinct sequences, the ascending
  enumeration of a set of ids, the enumeration of a map's keys in unspecified
  order, and the existence of fresh keys.
- `ProductRepository` (`product_repository.dfy`): the product record, the table,
  and the derived query as a function with its contract.
- `ProductService` (`product_service.dfy`): the request and response records,
  the purchase's pure steps (id extraction, the sort by product id), the
  specification of the outcome, and the class `ProductService`, which owns the
  table and runs the purchase loop.
- `CustomerService` (`customer_service.dfy`): the customer records, the blank
  test, the merge rule and its laws, and the class `CustomerService`, which owns
  the customer collection.

The stores are `map` fields of the service classes, which the methods reassign.
Records are values, so a Java setter becomes a record update that is then
saved. The transaction is a snapshot of the table taken when the call starts,
and every failure path restores it.

A batch naming a product twice is refused: the `IN` query returns that product
once, so the size check at `ProductService.java:68` fails and nothing is
decremented (`DuplicateProductIdFailsSizeCheck`).

## Model

| member | source | states |
|---|---|---|
| ProductRepository.FindAllByIdInOrderById | product/src/main/java/com/ganeshgc/ecommerce/repository/ProductRepository.java:10 | one row per distinct listed id that is stored; every row is the table's row under its id and has a listed id; every stored listed id's row is returned; ids strictly ascending |
| ProductRepository.FetchedIds | product/src/main/java/com/ganeshgc/ecommerce/repository/ProductRepository.java:8-10 | when every listed id is stored, the returned ids are exactly the listed ids, in strictly ascending order |
| ProductRepository.FetchCount | product/src/main/java/com/ganeshgc/ecommerce/repository/ProductRepository.java:10 | the result is no longer than the number of distinct listed ids, which is at most the list's length; it is as long as the list exactly when the ids are distinct and all stored |
| ProductService.ProductIds | product/src/main/java/com/ganeshgc/ecommerce/service/ProductService.java:56-59 | one id per purchase line, line i giving id i |
| ProductService.SortByProductId | product/src/main/java/com/ganeshgc/ecommerce/service/ProductService.java:75-78 | the lines sorted by product id: a permutation of the batch (same multiset) in non-decreasing id order |
| ProductService.SortedBatchIds | product/src/main/java/com/ganeshgc/ecommerce/service/ProductService.java:75-78 | when the batch's ids are distinct, the sorted batch names the same ids, strictly ascending |
| ProductService.SizeCheck | product/src/main/java/com/ganeshgc/ecommerce/service/ProductService.java:63-70 | the size check passes exactly when the batch names distinct products that are all stored |
| ProductService.DuplicateProductIdFailsSizeCheck | product/src/main/java/com/ganeshgc/ecommerce/service/ProductService.java:63-68 | a batch naming one product in two lines fetches fewer rows than it has lines |
| ProductService.Alignment | product/src/main/java/com/ganeshgc/ecommerce/service/ProductService.java:75-87 | after the size check, the i-th sorted line names the product of the i-th fetched row, for every i |
| ProductService.Prepared | product/src/main/java/com/ganeshgc/ecommerce/service/ProductService.java:63-87 | after the size check, the sorted lines are sorted, aligned with the fetched rows as stored, and hold the same lines as the batch |
| ProductService.ShortageIsFirst | product/src/main/java/com/ganeshgc/ecommerce/service/ProductService.java:85-93 | the first sorted line that fails the stock check names a requested product short of stock, and every line with a smaller id is in stock |
| ProductService.ShortageRefutesStock | product/src/main/java/com/ganeshgc/ecommerce/service/ProductService.java:91-93 | a line short of stock means the batch is not all in stock |
| ProductService.ProgressStep | product/src/main/java/com/ganeshgc/ecommerce/service/ProductService.java:96-100 | writing back one decremented product that passed the stock check moves the loop state on by one line and changes no other product |
| ProductService.CommittedLines | product/src/main/java/com/ganeshgc/ecommerce/service/ProductService.java:91-104 | once the loop has run through, every line of the batch was in stock, its product is the old product decremented by its quantity, and its confirmation was collected |
| ProductService.UntouchedOutsideBatch | product/src/main/java/com/ganeshgc/ecommerce/service/ProductService.java:96-100 | products the batch does not name are as they were |
| ProductService.Committed | product/src/main/java/com/ganeshgc/ecommerce/service/ProductService.java:85-108 | a completed loop leaves the batch all in stock, leaves the table as the bought table (same keys, named products decremented, others unchanged), and returns confirmations that are one per line, ascending by id and each carrying its line's quantity |
| ProductService.BoughtStockNonNegative | product/src/main/java/com/ganeshgc/ecommerce/service/ProductService.java:91-97 | in a bought batch that was in stock, no named product's quantity is below zero |
| ProductService.BoughtPreservesNonNegative | product/src/main/java/com/ganeshgc/ecommerce/service/ProductService.java:91-100 | buying a batch that was in stock keeps a table with no negative stock free of negative stock |
| ProductRepository.FindById | product/src/main/java/com/ganeshgc/ecommerce/service/ProductService.java:34 | `repository.findById`: a product exactly when the id is stored, and then the table's row under it |
| ProductService.ProductService.Save | product/src/main/java/com/ganeshgc/ecommerce/service/ProductService.java:100 | `repository.save`: the table with the product stored under its own id and every other row unchanged, still keyed by id |
| ProductService.ProductService.CreateProduct | product/src/main/java/com/ganeshgc/ecommerce/service/ProductService.java:26-31 | the returned id was free before the call, and the table gains the mapped product under it with nothing else changed |
| ProductService.ProductService.FindById | product/src/main/java/com/ganeshgc/ecommerce/service/ProductService.java:33-37 | the stored product's response when the id is stored, `EntityNotFound(id)` otherwise; reads the table only |
| ProductService.ProductService.FindAll | product/src/main/java/com/ganeshgc/ecommerce/service/ProductService.java:39-44 | exactly one response per stored product, each its product's mapped response |
| ProductService.ProductService.CheckAndDecrement | product/src/main/java/com/ganeshgc/ecommerce/service/ProductService.java:85-105 | either the first line short of stock, with all earlier lines in stock and exactly those earlier products already decremented and saved (the partial write the rollback undoes), or the table with every aligned product decremented, nothing else changed, and one confirmation per line in sorted order |
| ProductService.ProductService.PurchaseProducts | product/src/main/java/com/ganeshgc/ecommerce/service/ProductService.java:49-109 | all or nothing: a failure leaves the table unchanged and is `ProductsMissing` exactly when a product is missing or named twice, or else `InsufficientStock` of the smallest id short of stock; success happens exactly when the batch is distinct, stored and in stock, and then the table is the bought table, no named product goes negative, non-negative stock stays non-negative, and the confirmations are one per line, ascending by id |
| CustomerService.MergerCustomer | customer-service/src/main/java/com/ganeshgc/ecommerce/service/CustomerService.java:38-51 | running the four conditional setters in turn gives the merge rule's result |
| CustomerService.MergeChangesOnlyProvidedFields | customer-service/src/main/java/com/ganeshgc/ecommerce/service/CustomerService.java:39-50 | the id is kept; a name or the email changes only to a non-blank request value and always takes one; the address is replaced exactly when the request carries one |
| CustomerService.MergeIdempotent | customer-service/src/main/java/com/ganeshgc/ecommerce/service/CustomerService.java:38-51 | merging the same request twice equals merging it once |
| CustomerService.BlankRequestKeepsCustomer | customer-service/src/main/java/com/ganeshgc/ecommerce/service/CustomerService.java:38-51 | blank names and email with no address leave the customer as it was |
| CustomerService.EmailOnlyRequest | customer-service/src/main/java/com/ganeshgc/ecommerce/service/CustomerService.java:38-51 | a request with only a usable email changes the email alone |
| CustomerService.MergeComposes | customer-service/src/main/java/com/ganeshgc/ecommerce/service/CustomerService.java:38-51 | two updates in a row merge like the single request that lays the second over the first |
| CustomerService.CustomerService.Lookup | customer-service/src/main/java/com/ganeshgc/ecommerce/service/CustomerService.java:30 | `customerRepository.findById`: a customer exactly when the id is stored, and then the stored one |
| CustomerService.CustomerService.Save | customer-service/src/main/java/com/ganeshgc/ecommerce/service/CustomerService.java:35 | `customerRepository.save`: the collection with the customer stored under its own id and every other entry unchanged |
| CustomerService.CustomerService.Delete | customer-service/src/main/java/com/ganeshgc/ecommerce/service/CustomerService.java:75 | `customerRepository.delete`: the collection without the customer's id, every other entry unchanged |
| CustomerService.CustomerService.CreateCustomer | customer-service/src/main/java/com/ganeshgc/ecommerce/service/CustomerService.java:24-27 | the returned id was free, the collection gains the mapped customer under it and nothing else, and finding it returns that customer |
| CustomerService.CustomerService.UpdateCustomer | customer-service/src/main/java/com/ganeshgc/ecommerce/service/CustomerService.java:29-36 | fails with `CustomerNotFound(id)` and changes nothing exactly when the id is absent; otherwise only that customer changes, to the merge of the stored customer and the request |
| CustomerService.CustomerService.FindAllCustomers | customer-service/src/main/java/com/ganeshgc/ecommerce/service/CustomerService.java:53-58 | exactly one response per stored customer, each its customer's mapped response |
| CustomerService.CustomerService.ExistById | customer-service/src/main/java/com/ganeshgc/ecommerce/service/CustomerService.java:60-63 | true exactly when the id is stored |
| CustomerService.CustomerService.FindById | customer-service/src/main/java/com/ganeshgc/ecommerce/service/CustomerService.java:65-70 | the stored customer's response when present, `CustomerNotFound(id)` otherwise; reads the collection only |
| CustomerService.CustomerService.DeleteById | customer-service/src/main/java/com/ganeshgc/ecommerce/service/CustomerService.java:72-76 | fails with `CustomerNotFound(id)` and changes nothing exactly when the id is absent; otherwise removes exactly that id; afterwards the id does not exist |

## Left out

- The HTTP controller (`CustomerController.java`): routing and status codes only delegate to the service.
- Exception messages: an error carries its kind and, where the message names one, the id. The text is not modelled.
- The mappers (`ProductMapper`, `CustomerMapper`) are not modelled line by line; the model maps records by field copies.
- The `Product`, `Customer`, `Address` and request records are likewise not modelled from their Java sources; the model gives them the fields the services and the responses use. `Address` has representative fields the services never read.
- The Spring Data repositories are framework code: `ProductService.ProductService.Save`, `ProductRepository.FindById`, `CustomerService.CustomerService.Save`, `CustomerService.CustomerService.Delete` and `CustomerService.CustomerService.Lookup` stand in for them, assuming that `save` upserts under the entity's key, `delete` removes the entry under the entity's id, and `findById` is a lookup in the table.
- Price: carried opaquely as unscaled value and scale, with no arithmetic.
- Id generation belongs to the store. It is modelled as a nondeterministic choice of an id that is not yet taken. An id carried in a customer request is not modelled.
- `findAll` and `findAllCustomers` return the store's order, which is unspecified. The contracts do not state an order, and the key enumeration picks keys nondeterministically.
- Entity identity and aliasing: records are values. A setter on a fetched entity followed by `save` becomes a record update that is written back. In the purchase loop this is exact, because the fetched rows have distinct ids.
- Spring's `@Transactional` machinery is replaced by an explicit snapshot that every failure path restores. Isolation between concurrent transactions, and lost updates under concurrent purchases, are out of scope.
- Java `int` overflow: quantities are mathematical integers. `availableQuantity - quantity` cannot wrap for the non-negative quantities that validation admits. Validation happens at the transport boundary and is not part of this model.
- Bean validation of requests (positive quantities, non-blank fields) is not modelled. No contract needs it.
- `null` arguments (a `null` batch or id) are not modelled. Ids and lists are always present values.
- `StringUtils.isBlank` is library code. It is modelled as "absent, or every character is whitespace" under `Character.isWhitespace`. All those characters lie in the Basic Multilingual Plane, so UTF-16 code units and Dafny characters agree on the test.
- ProductService.SortByProductId: the contract does not state that the sort is stable, so equal-id lines may come out in any relative order. Any batch that reaches the sort has distinct ids, so the purchase never depends on stability.
