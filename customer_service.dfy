/** The customer service: a registry of customers keyed by their string id,
    with create, partial update (the merge rule), existence test, lookup,
    listing and deletion. Customers are values; the registry is the one piece
    of state the service changes. */
module CustomerService {
  import opened Results
  import opened Collections

  /** A postal address, carried as a whole; the service never looks inside. */
  datatype Address = Address(street: string, houseNumber: string, zipCode: string)

  /** A stored customer. The text fields and the address may be absent
      (`null`); `None` stands for that. */
  datatype Customer = Customer(
    id: string,
    firstName: Option<string>,
    lastName: Option<string>,
    email: Option<string>,
    address: Option<Address>)

  /** What a client sends to create or update a customer. */
  datatype CustomerRequest = CustomerRequest(
    firstName: Option<string>,
    lastName: Option<string>,
    email: Option<string>,
    address: Option<Address>)

  datatype CustomerResponse = CustomerResponse(
    id: string,
    firstName: Option<string>,
    lastName: Option<string>,
    email: Option<string>,
    address: Option<Address>)

  datatype CustomerError = CustomerNotFound(id: string)

  // The mapper: field copies.

  function ToCustomer(request: CustomerRequest, id: string): Customer
  {
    Customer(id, request.firstName, request.lastName, request.email, request.address)
  }

  function FromCustomer(c: Customer): CustomerResponse
  {
    CustomerResponse(c.id, c.firstName, c.lastName, c.email, c.address)
  }

  /** `Character.isWhitespace`: the Unicode space, line and paragraph
      separators other than the no-break spaces U+00A0, U+2007 and U+202F,
      and the controls U+0009 to U+000D and U+001C to U+001F. */
  predicate IsWhitespace(c: char)
  {
    || '\U{0009}' <= c <= '\U{000D}'
    || '\U{001C}' <= c <= '\U{0020}'
    || c == '\U{1680}'
    || '\U{2000}' <= c <= '\U{2006}'
    || '\U{2008}' <= c <= '\U{200A}'
    || c == '\U{2028}' || c == '\U{2029}' || c == '\U{205F}' || c == '\U{3000}'
  }

  /** `StringUtils.isBlank`: absent, empty, or whitespace throughout. */
  predicate IsBlank(s: Option<string>)
  {
    s.None? || forall i :: 0 <= i < |s.value| ==> IsWhitespace(s.value[i])
  }

  /** A text field after a patch: the request's value when it is not blank,
      otherwise the value already stored. */
  function Patch(current: Option<string>, requested: Option<string>): Option<string>
  {
    if IsBlank(requested) then current else requested
  }

  /** The merge rule of `mergerCustomer`, field by field: text fields are
      overwritten by non-blank request values, the address by a present one,
      and the id is never touched. */
  function Merged(c: Customer, r: CustomerRequest): Customer
  {
    Customer(
      c.id,
      Patch(c.firstName, r.firstName),
      Patch(c.lastName, r.lastName),
      Patch(c.email, r.email),
      if r.address.Some? then r.address else c.address)
  }

  /** A field changes exactly when the request carries a usable value for it,
      and then it takes that value. */
  lemma MergeChangesOnlyProvidedFields(c: Customer, r: CustomerRequest)
    ensures Merged(c, r).id == c.id
    ensures Merged(c, r).firstName != c.firstName ==> !IsBlank(r.firstName) && Merged(c, r).firstName == r.firstName
    ensures !IsBlank(r.firstName) ==> Merged(c, r).firstName == r.firstName
    ensures Merged(c, r).lastName != c.lastName ==> !IsBlank(r.lastName) && Merged(c, r).lastName == r.lastName
    ensures !IsBlank(r.lastName) ==> Merged(c, r).lastName == r.lastName
    ensures Merged(c, r).email != c.email ==> !IsBlank(r.email) && Merged(c, r).email == r.email
    ensures !IsBlank(r.email) ==> Merged(c, r).email == r.email
    ensures Merged(c, r).address == (if r.address.Some? then r.address else c.address)
  {
  }

  /** Applying the same request twice gives what applying it once gives. */
  lemma MergeIdempotent(c: Customer, r: CustomerRequest)
    ensures Merged(Merged(c, r), r) == Merged(c, r)
  {
  }

  /** A request with only blank names and email and no address changes nothing. */
  lemma BlankRequestKeepsCustomer(c: Customer, r: CustomerRequest)
    requires IsBlank(r.firstName) && IsBlank(r.lastName) && IsBlank(r.email) && r.address.None?
    ensures Merged(c, r) == c
  {
  }

  /** A request that carries only a usable email changes the email alone. */
  lemma EmailOnlyRequest(c: Customer, r: CustomerRequest)
    requires IsBlank(r.firstName) && IsBlank(r.lastName) && !IsBlank(r.email) && r.address.None?
    ensures Merged(c, r) == c.(email := r.email)
  {
  }

  /** The request that applies `second` on top of `first`. */
  function Combined(first: CustomerRequest, second: CustomerRequest): CustomerRequest
  {
    CustomerRequest(
      Patch(first.firstName, second.firstName),
      Patch(first.lastName, second.lastName),
      Patch(first.email, second.email),
      if second.address.Some? then second.address else first.address)
  }

  /** Two updates in a row merge like the one combined update. */
  lemma MergeComposes(c: Customer, first: CustomerRequest, second: CustomerRequest)
    ensures Merged(Merged(c, first), second) == Merged(c, Combined(first, second))
  {
  }

  /** `mergerCustomer`: the setters run in turn on the fetched customer. */
  method MergerCustomer(customer: Customer, request: CustomerRequest) returns (merged: Customer)
    ensures merged == Merged(customer, request)
  {
    merged := customer;
    if !IsBlank(request.firstName) {
      merged := merged.(firstName := request.firstName);
    }
    if !IsBlank(request.lastName) {
      merged := merged.(lastName := request.lastName);
    }
    if !IsBlank(request.email) {
      merged := merged.(email := request.email);
    }
    if request.address.Some? {
      merged := merged.(address := request.address);
    }
  }

  /** Every customer is stored under its own id. */
  predicate WellKeyed(t: map<string, Customer>)
  {
    forall id :: id in t ==> t[id].id == id
  }

  class CustomerService {
    /** The customer collection behind the repository. */
    var customers: map<string, Customer>

    ghost predicate Valid()
      reads this
    {
      WellKeyed(customers)
    }

    constructor (initial: map<string, Customer>)
      requires WellKeyed(initial)
      ensures Valid() && customers == initial
    {
      customers := initial;
    }

    /** `repository.save`: inserts or overwrites the customer under its id. */
    method Save(c: Customer)
      requires Valid()
      modifies this
      ensures Valid()
      ensures customers == old(customers)[c.id := c]
    {
      customers := customers[c.id := c];
    }

    /** `repository.delete`: removes the customer's entry. */
    method Delete(c: Customer)
      requires Valid()
      modifies this
      ensures Valid()
      ensures customers == old(customers) - {c.id}
    {
      customers := customers - {c.id};
    }

    /** `repository.findById`. */
    function Lookup(id: string): (r: Option<Customer>)
      reads this
      ensures r.Some? <==> id in customers
      ensures r.Some? ==> r.value == customers[id]
    {
      if id in customers then Some(customers[id]) else None
    }

    /** `createCustomer`: saves the mapped customer under an id the store
        chooses and returns that id. */
    method CreateCustomer(request: CustomerRequest) returns (id: string)
      requires Valid()
      modifies this
      ensures Valid()
      ensures id !in old(customers)
      ensures customers == old(customers)[id := ToCustomer(request, id)]
      ensures FindById(id) == Success(FromCustomer(ToCustomer(request, id)))
    {
      FreshStringExists(customers.Keys);
      id :| id !in customers.Keys;
      Save(ToCustomer(request, id));
    }

    /** `updateCustomer`: merges the request into the stored customer and
        saves it, or fails when there is no customer with that id. */
    method UpdateCustomer(id: string, request: CustomerRequest) returns (r: Outcome<CustomerError>)
      requires Valid()
      modifies this
      ensures Valid()
      ensures r.Fail? <==> id !in old(customers)
      ensures r.Fail? ==> r.error == CustomerNotFound(id) && customers == old(customers)
      ensures r.Pass? ==> customers == old(customers)[id := Merged(old(customers)[id], request)]
    {
      match Lookup(id)
      case None =>
        return Fail(CustomerNotFound(id));
      case Some(customer) =>
        var merged := MergerCustomer(customer, request);
        MergeChangesOnlyProvidedFields(customer, request);
        Save(merged);
        return Pass;
    }

    /** `findAllCustomers`: one response per stored customer, in the store's order. */
    method FindAllCustomers() returns (rs: seq<CustomerResponse>)
      requires Valid()
      ensures |rs| == |customers|
      ensures forall id :: id in customers ==> FromCustomer(customers[id]) in rs
      ensures forall i :: 0 <= i < |rs| ==> rs[i].id in customers && rs[i] == FromCustomer(customers[rs[i].id])
      ensures forall i, j :: 0 <= i < j < |rs| ==> rs[i].id != rs[j].id
    {
      var t := customers;
      var ids := KeysOf(t);
      rs := seq(|ids|, i requires 0 <= i < |ids| => FromCustomer(t[ids[i]]));
      forall i | 0 <= i < |rs|
        ensures rs[i].id == ids[i] && rs[i] == FromCustomer(t[rs[i].id])
      {
        assert ids[i] in t;
      }
      forall id | id in t
        ensures FromCustomer(t[id]) in rs
      {
        var i := IndexOf(ids, id);
        assert rs[i] == FromCustomer(t[id]);
      }
    }

    /** `existById`. */
    function ExistById(id: string): (b: bool)
      reads this
      ensures b <==> id in customers
    {
      Lookup(id).Some?
    }

    /** `findById`: the customer's response, or not-found. */
    function FindById(id: string): (r: Result<CustomerResponse, CustomerError>)
      reads this
      ensures r.Success? <==> id in customers
      ensures r.Success? ==> r.value == FromCustomer(customers[id])
      ensures r.Failure? ==> r.error == CustomerNotFound(id)
    {
      match Lookup(id)
      case Some(c) => Success(FromCustomer(c))
      case None => Failure(CustomerNotFound(id))
    }

    /** `deleteById`: removes the customer, or fails when there is none. */
    method DeleteById(id: string) returns (r: Outcome<CustomerError>)
      requires Valid()
      modifies this
      ensures Valid()
      ensures r.Fail? <==> id !in old(customers)
      ensures r.Fail? ==> r.error == CustomerNotFound(id) && customers == old(customers)
      ensures r.Pass? ==> customers == old(customers) - {id}
      ensures !ExistById(id)
    {
      match Lookup(id)
      case None =>
        return Fail(CustomerNotFound(id));
      case Some(customer) =>
        Delete(customer);
        return Pass;
    }
  }
}
