/** The product service: product creation and lookup over the product table,
    and the batch purchase workflow. A batch is checked against the stored
    products fetched in id order, the requests are sorted by product id so
    that position i of both lists names the same product, and each product's
    stock is decremented in turn. The whole call is one transaction: every
    failure restores the table as it was when the call began. */
module ProductService {
  import opened Results
  import opened Collections
  import opened ProductRepository

  /** What a client sends to create a product. */
  datatype ProductRequest = ProductRequest(
    name: string,
    description: string,
    availableQuantity: int,
    price: Price)

  datatype ProductResponse = ProductResponse(
    id: int,
    name: string,
    description: string,
    availableQuantity: int,
    price: Price)

  /** One line of a purchase batch. */
  datatype PurchaseRequest = PurchaseRequest(productId: int, quantity: int)

  /** The confirmation for one purchased line. */
  datatype PurchaseResponse = PurchaseResponse(
    productId: int,
    name: string,
    description: string,
    price: Price,
    quantity: int)

  datatype ProductError =
    | EntityNotFound(id: int)            // findById on an absent id
    | ProductsMissing                    // "One or more products does not exist"
    | InsufficientStock(productId: int)  // "Insufficient stock quantity for product with ID:: ..."

  // The mapper: field copies.

  function ToProduct(request: ProductRequest, id: int): Product
  {
    Product(id, request.name, request.description, request.availableQuantity, request.price)
  }

  function ToProductResponse(p: Product): ProductResponse
  {
    ProductResponse(p.id, p.name, p.description, p.availableQuantity, p.price)
  }

  function ToPurchaseResponse(p: Product, quantity: int): PurchaseResponse
  {
    PurchaseResponse(p.id, p.name, p.description, p.price, quantity)
  }

  /** The requested product ids, in the order of the batch. */
  function ProductIds(request: seq<PurchaseRequest>): (ids: seq<int>)
    ensures |ids| == |request|
    ensures forall i :: 0 <= i < |request| ==> ids[i] == request[i].productId
  {
    if request == [] then [] else [request[0].productId] + ProductIds(request[1..])
  }

  predicate SortedByProductId(s: seq<PurchaseRequest>)
  {
    forall i, j :: 0 <= i < j < |s| ==> s[i].productId <= s[j].productId
  }

  /** Puts `x` before the first line whose id is not smaller than its own. */
  function InsertByProductId(x: PurchaseRequest, s: seq<PurchaseRequest>): (r: seq<PurchaseRequest>)
    ensures |r| == |s| + 1
    ensures forall k :: 0 <= k < |r| ==> r[k] == x || r[k] in s
    ensures multiset(r) == multiset(s) + multiset{x}
  {
    if s == [] || x.productId <= s[0].productId then
      [x] + s
    else
      assert s == [s[0]] + s[1..];
      [s[0]] + InsertByProductId(x, s[1..])
  }

  /** Inserting into a sorted batch keeps it sorted. */
  lemma {:induction false} InsertKeepsSorted(x: PurchaseRequest, s: seq<PurchaseRequest>)
    requires SortedByProductId(s)
    ensures SortedByProductId(InsertByProductId(x, s))
  {
    if s != [] && x.productId > s[0].productId {
      InsertKeepsSorted(x, s[1..]);
      var rest := InsertByProductId(x, s[1..]);
      var r := [s[0]] + rest;
      assert forall k :: 0 <= k < |rest| ==> s[0].productId <= rest[k].productId;
      assert forall k :: 0 < k < |r| ==> r[k] == rest[k - 1];
    }
  }

  /** The batch sorted by product id: a stable sort, as
      `sorted(Comparator.comparing(productId))`. */
  function SortByProductId(request: seq<PurchaseRequest>): (sorted: seq<PurchaseRequest>)
    ensures |sorted| == |request|
    ensures SortedByProductId(sorted)
    ensures multiset(sorted) == multiset(request)
  {
    if request == [] then []
    else
      assert request == [request[0]] + request[1..];
      var rest := SortByProductId(request[1..]);
      InsertKeepsSorted(request[0], rest);
      InsertByProductId(request[0], rest)
  }

  /** Every line of the batch names a stored product and no product is named twice. */
  predicate DistinctAndStored(t: ProductTable, request: seq<PurchaseRequest>)
  {
    Distinct(ProductIds(request)) && forall i :: 0 <= i < |request| ==> request[i].productId in t
  }

  /** The named product is stored and has at least the requested quantity. */
  predicate InStock(t: ProductTable, line: PurchaseRequest)
  {
    line.productId in t && line.quantity <= t[line.productId].availableQuantity
  }

  /** `id` is the smallest requested id whose line asks for more than is in stock. */
  predicate FirstShortage(t: ProductTable, request: seq<PurchaseRequest>, id: int)
  {
    && (exists i :: 0 <= i < |request| && request[i].productId == id && !InStock(t, request[i]))
    && (forall i :: 0 <= i < |request| && request[i].productId < id ==> InStock(t, request[i]))
  }

  function Decrement(p: Product, quantity: int): Product
  {
    p.(availableQuantity := p.availableQuantity - quantity)
  }

  /** The size check passes exactly when the batch names distinct, stored products. */
  lemma SizeCheck(t: ProductTable, request: seq<PurchaseRequest>)
    requires WellKeyed(t)
    ensures |FindAllByIdInOrderById(t, ProductIds(request))| == |request| <==> DistinctAndStored(t, request)
  {
    FetchCount(t, ProductIds(request));
  }

  /** A batch that names one product twice fails the size check: the query
      returns that product only once. */
  lemma DuplicateProductIdFailsSizeCheck(t: ProductTable, request: seq<PurchaseRequest>, i: int, j: int)
    requires WellKeyed(t)
    requires 0 <= i < j < |request| && request[i].productId == request[j].productId
    ensures |FindAllByIdInOrderById(t, ProductIds(request))| < |request|
  {
    var ids := ProductIds(request);
    FetchCount(t, ids);
    assert ids[i] == ids[j];
  }

  /** Two batches with the same lines, counted with multiplicity, hold each
      other's lines. */
  lemma SameLines(a: seq<PurchaseRequest>, b: seq<PurchaseRequest>)
    requires multiset(a) == multiset(b)
    ensures forall k :: 0 <= k < |a| ==> a[k] in b
    ensures forall k :: 0 <= k < |b| ==> b[k] in a
  {
    forall k | 0 <= k < |a|
      ensures a[k] in b
    {
      assert a[k] in multiset(a);
    }
    forall k | 0 <= k < |b|
      ensures b[k] in a
    {
      assert b[k] in multiset(b);
    }
  }

  /** Every id named in `a` is named in `b` when `b` holds all of `a`'s lines. */
  lemma IdsCovered(a: seq<PurchaseRequest>, b: seq<PurchaseRequest>)
    requires forall k :: 0 <= k < |a| ==> a[k] in b
    ensures forall x :: x in ProductIds(a) ==> x in ProductIds(b)
  {
    var ia, ib := ProductIds(a), ProductIds(b);
    forall x | x in ia
      ensures x in ib
    {
      var j := IndexOf(ia, x);
      var k := IndexOf(b, a[j]);
      assert ib[k] == x;
    }
  }

  /** Two batches with the same lines name the same ids. */
  lemma SameIds(a: seq<PurchaseRequest>, b: seq<PurchaseRequest>)
    requires multiset(a) == multiset(b)
    ensures forall x :: x in ProductIds(a) <==> x in ProductIds(b)
  {
    SameLines(a, b);
    IdsCovered(a, b);
    IdsCovered(b, a);
  }

  /** When the batch's ids are distinct, the sorted batch names the same ids,
      strictly ascending. */
  lemma SortedBatchIds(request: seq<PurchaseRequest>)
    requires Distinct(ProductIds(request))
    ensures forall x :: x in ProductIds(SortByProductId(request)) <==> x in ProductIds(request)
    ensures StrictlyAscending(ProductIds(SortByProductId(request)))
  {
    var sorted := SortByProductId(request);
    var a := ProductIds(sorted);
    SameIds(sorted, request);
    DistinctLikeSameSize(a, ProductIds(request));
    forall i, j | 0 <= i < j < |a|
      ensures a[i] < a[j]
    {
      assert a[i] == sorted[i].productId && a[j] == sorted[j].productId;
      assert a[i] != a[j];
    }
  }

  /** Once the size check passes, the i-th sorted line names the i-th fetched product. */
  lemma Alignment(t: ProductTable, request: seq<PurchaseRequest>)
    requires WellKeyed(t)
    requires |FindAllByIdInOrderById(t, ProductIds(request))| == |request|
    ensures forall i :: 0 <= i < |request| ==>
              SortByProductId(request)[i].productId == FindAllByIdInOrderById(t, ProductIds(request))[i].id
  {
    var ids := ProductIds(request);
    FetchCount(t, ids);
    SortedBatchIds(request);
    FetchedIds(t, ids);
    StrictlyAscendingUnique(ProductIds(SortByProductId(request)), IdsOf(FindAllByIdInOrderById(t, ids)));
  }

  /** Position j of the sorted batch names the product at position j of the
      fetched rows, and those rows are the table's. */
  predicate Aligned(t: ProductTable, sorted: seq<PurchaseRequest>, stored: seq<Product>)
  {
    && |sorted| == |stored|
    && (forall j :: 0 <= j < |stored| ==>
          sorted[j].productId == stored[j].id && stored[j].id in t && t[stored[j].id] == stored[j])
  }

  /** The first `i` aligned lines passed the stock check. */
  predicate PassedUpTo(sorted: seq<PurchaseRequest>, stored: seq<Product>, i: int)
  {
    forall j :: 0 <= j < i && j < |sorted| && j < |stored| ==> sorted[j].quantity <= stored[j].availableQuantity
  }

  /** The first sorted line that fails the stock check carries the smallest
      requested id whose line asks for more than is in stock. */
  lemma ShortageIsFirst(t: ProductTable, request: seq<PurchaseRequest>, sorted: seq<PurchaseRequest>,
                        stored: seq<Product>, i: int)
    requires SortedByProductId(sorted) && Aligned(t, sorted, stored)
    requires forall k :: 0 <= k < |request| ==> request[k] in sorted
    requires 0 <= i < |sorted| && sorted[i] in request
    requires PassedUpTo(sorted, stored, i)
    requires stored[i].availableQuantity < sorted[i].quantity
    ensures FirstShortage(t, request, sorted[i].productId)
  {
    var k := IndexOf(request, sorted[i]);
    assert request[k].productId == sorted[i].productId && !InStock(t, request[k]);
    forall k' | 0 <= k' < |request| && request[k'].productId < sorted[i].productId
      ensures InStock(t, request[k'])
    {
      var j := IndexOf(sorted, request[k']);
      assert j < i;
    }
  }

  /** Every line of the batch is in stock. */
  predicate AllInStock(t: ProductTable, request: seq<PurchaseRequest>)
  {
    forall i :: 0 <= i < |request| ==> InStock(t, request[i])
  }

  /** Why a batch was refused: a missing or repeated product, or the
      smallest product id whose line asks for more than is in stock. */
  predicate Refusal(t: ProductTable, request: seq<PurchaseRequest>, e: ProductError)
  {
    match e
    case ProductsMissing => !DistinctAndStored(t, request)
    case InsufficientStock(id) => DistinctAndStored(t, request) && FirstShortage(t, request, id)
    case EntityNotFound(_) => false
  }

  /** `t'` is `t` after the batch was bought: the same products, each named
      product decremented by its line's quantity, every other one untouched. */
  predicate Bought(t: ProductTable, t': ProductTable, request: seq<PurchaseRequest>)
  {
    && t'.Keys == t.Keys
    && (forall i :: 0 <= i < |request| ==>
          && request[i].productId in t && request[i].productId in t'
          && t'[request[i].productId] == Decrement(t[request[i].productId], request[i].quantity))
    && (forall id :: id in t && id !in ProductIds(request) ==> t'[id] == t[id])
  }

  /** The confirmations of a bought batch: one per line, ascending by product
      id, each carrying its line's quantity and its product as saved. */
  predicate Confirmed(t': ProductTable, request: seq<PurchaseRequest>, responses: seq<PurchaseResponse>)
  {
    && |responses| == |request|
    && (forall i, j :: 0 <= i < j < |responses| ==> responses[i].productId < responses[j].productId)
    && (forall i :: 0 <= i < |request| ==>
          request[i].productId in t' &&
          ToPurchaseResponse(t'[request[i].productId], request[i].quantity) in responses)
  }

  /** A batch that passed the size check, once sorted, lines up position by
      position with the fetched rows, and holds the same lines. */
  lemma Prepared(t: ProductTable, request: seq<PurchaseRequest>)
    requires WellKeyed(t) && DistinctAndStored(t, request)
    ensures |FindAllByIdInOrderById(t, ProductIds(request))| == |request|
    ensures SortedByProductId(SortByProductId(request))
    ensures Aligned(t, SortByProductId(request), FindAllByIdInOrderById(t, ProductIds(request)))
    ensures forall k :: 0 <= k < |request| ==> request[k] in SortByProductId(request)
    ensures forall j :: 0 <= j < |request| ==> SortByProductId(request)[j] in request
  {
    SizeCheck(t, request);
    Alignment(t, request);
    SameLines(request, SortByProductId(request));
  }

  /** A shortage means not every line is in stock. */
  lemma ShortageRefutesStock(t: ProductTable, request: seq<PurchaseRequest>, id: int)
    requires FirstShortage(t, request, id)
    ensures !AllInStock(t, request)
  {
    var i :| 0 <= i < |request| && request[i].productId == id && !InStock(t, request[i]);
  }

  /** The state of the purchase loop after `i` lines: `p` is the table `o`
      with the first `i` fetched products decremented by their lines'
      quantities, after each passed the stock check, and nothing else changed. */
  predicate Progress(o: ProductTable, p: ProductTable, sorted: seq<PurchaseRequest>, stored: seq<Product>, i: int)
  {
    && 0 <= i <= |stored| && Aligned(o, sorted, stored)
    && (forall j, k :: 0 <= j < k < |stored| ==> stored[j].id < stored[k].id)
    && p.Keys == o.Keys
    && PassedUpTo(sorted, stored, i)
    && (forall j :: 0 <= j < i ==> p[stored[j].id] == Decrement(stored[j], sorted[j].quantity))
    && (forall j :: i <= j < |stored| ==> p[stored[j].id] == stored[j])
    && (forall id :: id in o && id !in IdsOf(stored) ==> p[id] == o[id])
  }

  /** One more line that passed the stock check, once its decremented
      product is written back, extends the loop state by one. */
  lemma ProgressStep(o: ProductTable, p: ProductTable, sorted: seq<PurchaseRequest>, stored: seq<Product>, i: int)
    requires Progress(o, p, sorted, stored, i) && i < |stored|
    requires sorted[i].quantity <= stored[i].availableQuantity
    ensures Progress(o, p[stored[i].id := Decrement(stored[i], sorted[i].quantity)], sorted, stored, i + 1)
  {
    var p' := p[stored[i].id := Decrement(stored[i], sorted[i].quantity)];
    assert IdsOf(stored)[i] == stored[i].id;
    forall j | 0 <= j < |stored| && j != i
      ensures p'[stored[j].id] == p[stored[j].id]
    {
      assert stored[j].id != stored[i].id by {
        if j < i {
          assert stored[j].id < stored[i].id;
        } else {
          assert stored[i].id < stored[j].id;
        }
      }
    }
  }

  /** When every sorted line passed the stock check and was written back,
      every line of the batch was in stock, the table is the bought table and
      the collected responses confirm the batch. */
  lemma Committed(t: ProductTable, updated: ProductTable, request: seq<PurchaseRequest>,
                  sorted: seq<PurchaseRequest>, stored: seq<Product>, purchased: seq<PurchaseResponse>)
    requires Progress(t, updated, sorted, stored, |stored|) && |request| == |sorted|
    requires forall k :: 0 <= k < |request| ==> request[k] in sorted
    requires forall j :: 0 <= j < |sorted| ==> sorted[j] in request
    requires |purchased| == |stored|
    requires forall j :: 0 <= j < |stored| ==>
               purchased[j] == ToPurchaseResponse(Decrement(stored[j], sorted[j].quantity), sorted[j].quantity)
    ensures AllInStock(t, request)
    ensures Bought(t, updated, request)
    ensures Confirmed(updated, request, purchased)
  {
    CommittedLines(t, updated, request, sorted, stored, purchased);
    UntouchedOutsideBatch(t, updated, request, sorted, stored);
    forall i, j | 0 <= i < j < |purchased|
      ensures purchased[i].productId < purchased[j].productId
    {
      assert purchased[i].productId == stored[i].id && purchased[j].productId == stored[j].id;
    }
  }

  /** Each line of the batch was in stock, its product was decremented by
      the line's quantity, and its confirmation was collected. */
  lemma CommittedLines(t: ProductTable, updated: ProductTable, request: seq<PurchaseRequest>,
                       sorted: seq<PurchaseRequest>, stored: seq<Product>, purchased: seq<PurchaseResponse>)
    requires Aligned(t, sorted, stored)
    requires forall k :: 0 <= k < |request| ==> request[k] in sorted
    requires forall j :: 0 <= j < |stored| ==> sorted[j].quantity <= stored[j].availableQuantity
    requires forall j :: 0 <= j < |stored| ==>
               stored[j].id in updated && updated[stored[j].id] == Decrement(stored[j], sorted[j].quantity)
    requires |purchased| == |stored|
    requires forall j :: 0 <= j < |stored| ==>
               purchased[j] == ToPurchaseResponse(Decrement(stored[j], sorted[j].quantity), sorted[j].quantity)
    ensures forall k :: 0 <= k < |request| ==> InStock(t, request[k])
    ensures forall k :: 0 <= k < |request| ==>
              && request[k].productId in t && request[k].productId in updated
              && updated[request[k].productId] == Decrement(t[request[k].productId], request[k].quantity)
              && ToPurchaseResponse(updated[request[k].productId], request[k].quantity) in purchased
  {
    forall k | 0 <= k < |request|
      ensures InStock(t, request[k])
      ensures && request[k].productId in t && request[k].productId in updated
              && updated[request[k].productId] == Decrement(t[request[k].productId], request[k].quantity)
              && ToPurchaseResponse(updated[request[k].productId], request[k].quantity) in purchased
    {
      var j := IndexOf(sorted, request[k]);
      assert updated[request[k].productId] == Decrement(stored[j], sorted[j].quantity);
    }
  }

  /** A product the batch does not name was not written. */
  lemma UntouchedOutsideBatch(t: ProductTable, updated: ProductTable, request: seq<PurchaseRequest>,
                              sorted: seq<PurchaseRequest>, stored: seq<Product>)
    requires Aligned(t, sorted, stored)
    requires forall j :: 0 <= j < |sorted| ==> sorted[j] in request
    requires updated.Keys == t.Keys
    requires forall id :: id in t && id !in IdsOf(stored) ==> updated[id] == t[id]
    ensures forall id :: id in t && id !in ProductIds(request) ==> updated[id] == t[id]
  {
    var ids := ProductIds(request);
    forall x | x in IdsOf(stored)
      ensures x in ids
    {
      var j := IndexOf(IdsOf(stored), x);
      var k := IndexOf(request, sorted[j]);
      assert ids[k] == x;
    }
  }

  predicate NonNegativeStock(t: ProductTable)
  {
    forall id :: id in t ==> t[id].availableQuantity >= 0
  }

  /** A bought batch that was in stock leaves no named product below zero. */
  lemma BoughtStockNonNegative(t: ProductTable, t': ProductTable, request: seq<PurchaseRequest>)
    requires Bought(t, t', request) && AllInStock(t, request)
    ensures forall i :: 0 <= i < |request| ==> t'[request[i].productId].availableQuantity >= 0
  {
    forall i | 0 <= i < |request|
      ensures t'[request[i].productId].availableQuantity >= 0
    {
      assert InStock(t, request[i]);
    }
  }

  /** Buying a batch that was in stock keeps every stock level non-negative. */
  lemma {:induction false} BoughtPreservesNonNegative(t: ProductTable, t': ProductTable, request: seq<PurchaseRequest>)
    requires Bought(t, t', request) && AllInStock(t, request) && NonNegativeStock(t)
    ensures NonNegativeStock(t')
  {
    BoughtStockNonNegative(t, t', request);
    var ids := ProductIds(request);
    forall id | id in t'
      ensures t'[id].availableQuantity >= 0
    {
      if id in ids {
        var k := IndexOf(ids, id);
        assert request[k].productId == id;
      }
    }
  }

  class ProductService {
    /** The product table behind the repository. */
    var products: ProductTable

    ghost predicate Valid()
      reads this
    {
      WellKeyed(products)
    }

    constructor (initial: ProductTable)
      requires WellKeyed(initial)
      ensures Valid() && products == initial
    {
      products := initial;
    }

    /** `repository.save`: inserts or overwrites the row under its primary key. */
    method Save(p: Product)
      requires Valid()
      modifies this
      ensures Valid()
      ensures products == old(products)[p.id := p]
    {
      products := products[p.id := p];
    }

    /** `createProduct`: saves the mapped product under an id the store
        chooses and returns that id. */
    method CreateProduct(request: ProductRequest) returns (id: int)
      requires Valid()
      modifies this
      ensures Valid()
      ensures id !in old(products)
      ensures products == old(products)[id := ToProduct(request, id)]
    {
      FreshIntExists(products.Keys);
      id :| id !in products.Keys;
      Save(ToProduct(request, id));
    }

    /** `findById`: the product's response, or not-found. */
    function FindById(id: int): (r: Result<ProductResponse, ProductError>)
      reads this
      ensures r.Success? <==> id in products
      ensures r.Success? ==> r.value == ToProductResponse(products[id])
      ensures r.Failure? ==> r.error == EntityNotFound(id)
    {
      match ProductRepository.FindById(products, id)
      case Some(p) => Success(ToProductResponse(p))
      case None => Failure(EntityNotFound(id))
    }

    /** `findAll`: one response per stored product, in the store's order. */
    method FindAll() returns (rs: seq<ProductResponse>)
      requires Valid()
      ensures |rs| == |products|
      ensures forall id :: id in products ==> ToProductResponse(products[id]) in rs
      ensures forall i :: 0 <= i < |rs| ==> rs[i].id in products && rs[i] == ToProductResponse(products[rs[i].id])
      ensures forall i, j :: 0 <= i < j < |rs| ==> rs[i].id != rs[j].id
    {
      var t := products;
      var ids := KeysOf(t);
      rs := seq(|ids|, i requires 0 <= i < |ids| => ToProductResponse(t[ids[i]]));
      forall i | 0 <= i < |rs|
        ensures rs[i].id == ids[i] && rs[i] == ToProductResponse(t[rs[i].id])
      {
        assert ids[i] in t;
      }
      forall id | id in t
        ensures ToProductResponse(t[id]) in rs
      {
        var i := IndexOf(ids, id);
        assert rs[i] == ToProductResponse(t[id]);
      }
    }

    /** The loop of `purchaseProducts` over the aligned pairs: checks each
        line against its product's stock, decrements and saves the product
        and collects the confirmation, and stops at the first line that asks
        for more than is in stock (reported as its position). */
    method CheckAndDecrement(sorted: seq<PurchaseRequest>, stored: seq<Product>)
      returns (purchased: seq<PurchaseResponse>, failedAt: Option<int>)
      requires Valid() && Aligned(products, sorted, stored)
      requires forall j, k :: 0 <= j < k < |stored| ==> stored[j].id < stored[k].id
      modifies this
      ensures Valid() && products.Keys == old(products).Keys
      ensures failedAt.Some? ==>
                && 0 <= failedAt.value < |stored|
                && stored[failedAt.value].availableQuantity < sorted[failedAt.value].quantity
                && PassedUpTo(sorted, stored, failedAt.value)
                && Progress(old(products), products, sorted, stored, failedAt.value)
      ensures failedAt.None? ==>
                && Progress(old(products), products, sorted, stored, |stored|)
                && |purchased| == |stored|
                && (forall j :: 0 <= j < |stored| ==>
                      purchased[j] == ToPurchaseResponse(Decrement(stored[j], sorted[j].quantity), sorted[j].quantity))
    {
      purchased := [];
      var i := 0;
      while i < |stored|
        invariant Valid()
        invariant Progress(old(products), products, sorted, stored, i)
        invariant |purchased| == i
        invariant forall j :: 0 <= j < i ==>
                    purchased[j] == ToPurchaseResponse(Decrement(stored[j], sorted[j].quantity), sorted[j].quantity)
      {
        var product := stored[i];
        var productRequest := sorted[i];
        if product.availableQuantity < productRequest.quantity {
          return purchased, Some(i);
        }
        var newAvailableQuantity := product.availableQuantity - productRequest.quantity;
        product := product.(availableQuantity := newAvailableQuantity);
        assert product == Decrement(stored[i], sorted[i].quantity);
        ProgressStep(old(products), products, sorted, stored, i);
        Save(product);
        purchased := purchased + [ToPurchaseResponse(product, productRequest.quantity)];
        i := i + 1;
      }
      return purchased, None;
    }

    /** `purchaseProducts`: all lines of the batch are bought, or none. */
    method PurchaseProducts(request: seq<PurchaseRequest>) returns (r: Result<seq<PurchaseResponse>, ProductError>)
      requires Valid()
      modifies this
      ensures Valid()
      // all or nothing
      ensures r.Failure? ==> products == old(products) && Refusal(old(products), request, r.error)
      ensures r == Failure(ProductsMissing) <==> !DistinctAndStored(old(products), request)
      ensures r.Success? <==> DistinctAndStored(old(products), request) && AllInStock(old(products), request)
      // the new table and the confirmations
      ensures r.Success? ==> Bought(old(products), products, request) && Confirmed(products, request, r.value)
      ensures r.Success? ==> forall i :: 0 <= i < |request| ==> products[request[i].productId].availableQuantity >= 0
      ensures r.Success? && NonNegativeStock(old(products)) ==> NonNegativeStock(products)
    {
      var snapshot := products;  // the transaction begins
      var productIds := ProductIds(request);
      var storedProducts := FindAllByIdInOrderById(products, productIds);
      SizeCheck(products, request);
      if |productIds| != |storedProducts| {
        products := snapshot;  // rollback
        return Failure(ProductsMissing);
      }
      var sortedRequest := SortByProductId(request);
      Prepared(products, request);
      var purchased, failedAt := CheckAndDecrement(sortedRequest, storedProducts);
      if failedAt.Some? {
        ShortageIsFirst(snapshot, request, sortedRequest, storedProducts, failedAt.value);
        ShortageRefutesStock(snapshot, request, sortedRequest[failedAt.value].productId);
        products := snapshot;  // rollback
        return Failure(InsufficientStock(sortedRequest[failedAt.value].productId));
      }
      Committed(snapshot, products, request, sortedRequest, storedProducts, purchased);
      BoughtStockNonNegative(snapshot, products, request);
      if NonNegativeStock(snapshot) {
        BoughtPreservesNonNegative(snapshot, products, request);
      }
      // the transaction commits
      return Success(purchased);
    }
  }
}
