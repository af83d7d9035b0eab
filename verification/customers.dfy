/** The customer endpoints: `CustomerController.list`'s parameter checks,
    `CustomerService` over the customers table, and
    `CustomerQueryRepository.listNewestFirst`. */
module Customers {
  import opened Wrappers
  import opened Text
  import opened Json
  import opened ApiErrors
  import opened Sorting
  import opened Store

  const DEFAULT_LIMIT := 20
  const DEFAULT_OFFSET := 0
  const LIMIT_MESSAGE := "limit must be between 1 and 100"
  const OFFSET_MESSAGE := "offset must be >= 0"

  /** The page `list` answers with. */
  datatype CustomerListResponse = CustomerListResponse(limit: int, offset: int, count: int, items: seq<Customer>)

  /** The checks of `list`, limit first: `None` when both pass. */
  function ValidateListParams(limit: int, offset: int): (err: Option<ApiException>)
    ensures (limit < 1 || limit > 100) ==> err == Some(IllegalArgument(LIMIT_MESSAGE))
    ensures 1 <= limit <= 100 && offset < 0 ==> err == Some(IllegalArgument(OFFSET_MESSAGE))
    ensures err.None? <==> 1 <= limit <= 100 && offset >= 0
  {
    if limit < 1 || limit > 100 then Some(IllegalArgument(LIMIT_MESSAGE))
    else if offset < 0 then Some(IllegalArgument(OFFSET_MESSAGE))
    else None
  }

  function NegCreatedAt(c: Customer): int { -c.createdAt }

  /** The whole table, newest first. */
  function NewestFirst(cs: seq<Customer>): (r: seq<Customer>)
    ensures multiset(r) == multiset(cs) && |r| == |cs|
    ensures forall i, j :: 0 <= i < j < |r| ==> r[i].createdAt >= r[j].createdAt
  {
    var r := SortBy(cs, NegCreatedAt);
    assert forall i, j :: 0 <= i < j < |r| ==> NegCreatedAt(r[i]) <= NegCreatedAt(r[j]);
    r
  }

  /** `listNewestFirst`: skip `offset` rows of the newest-first order and
      return up to `limit` of the rest. */
  function ListNewestFirst(cs: seq<Customer>, limit: nat, offset: nat): (r: seq<Customer>)
    ensures |r| == Min(limit, Max(0, |cs| - offset))
    ensures offset <= |cs| ==> r == NewestFirst(cs)[offset..offset + |r|]
  {
    Page(NewestFirst(cs), limit, offset)
  }

  /** A page is newest first and holds only customers of the table. */
  lemma PageIsNewestFirst(cs: seq<Customer>, limit: nat, offset: nat)
    ensures var r := ListNewestFirst(cs, limit, offset);
      && (forall i, j :: 0 <= i < j < |r| ==> r[i].createdAt >= r[j].createdAt)
      && multiset(r) <= multiset(cs)
  {
    var sorted := NewestFirst(cs);
    var r := ListNewestFirst(cs, limit, offset);
    assert forall i :: 0 <= i < |r| ==> r[i] == sorted[offset + i];
    PageIsSubMultiset(sorted, limit, offset);
  }

  /** Walking the table page by page misses no customer and repeats none:
      two consecutive pages make up the page of twice the size. */
  lemma ConsecutivePages(cs: seq<Customer>, limit: nat, offset: nat)
    ensures ListNewestFirst(cs, limit, offset) + ListNewestFirst(cs, limit, offset + limit)
            == ListNewestFirst(cs, 2 * limit, offset)
  {
    PagesTile(NewestFirst(cs), limit, offset);
  }

  /** `CustomerService.list`: the page, with limit and offset echoed and a
      count equal to the number of items. */
  function List(cs: seq<Customer>, limit: nat, offset: nat): (r: CustomerListResponse)
    ensures r.limit == limit && r.offset == offset
    ensures r.count == |r.items| && r.items == ListNewestFirst(cs, limit, offset)
  {
    var items := ListNewestFirst(cs, limit, offset);
    CustomerListResponse(limit, offset, |items|, items)
  }

  /** `GET /customers`: the checks, then the service with the parameters
      unchanged. */
  function ListEndpoint(cs: seq<Customer>, limit: int, offset: int): (r: Result<CustomerListResponse, ApiException>)
    ensures ValidateListParams(limit, offset).Some? ==> r == Err(ValidateListParams(limit, offset).value)
    ensures ValidateListParams(limit, offset).None? ==>
      limit >= 1 && offset >= 0 && r == Ok(List(cs, limit, offset)) && r.value.count <= limit
  {
    match ValidateListParams(limit, offset)
    case Some(err) => Err(err)
    case None => Ok(List(cs, limit, offset))
  }

  /** With the defaults, the first twenty customers, newest first. */
  lemma DefaultPage(cs: seq<Customer>)
    ensures ListEndpoint(cs, DEFAULT_LIMIT, DEFAULT_OFFSET) == Ok(List(cs, 20, 0))
    ensures |List(cs, 20, 0).items| == Min(20, |cs|)
  {
  }

  /** `findById`: the customer with that id, or not found. */
  function GetById(cs: seq<Customer>, id: Uuid): (r: Result<Customer, ApiException>)
    ensures r.Ok? <==> id in CustomerIds(cs)
    ensures r.Ok? ==> r.value in cs && r.value.id == id
    ensures r.Err? ==> r.error == CustomerNotFound(id)
  {
    if cs == [] then Err(CustomerNotFound(id))
    else if cs[0].id == id then Ok(cs[0])
    else
      assert cs == [cs[0]] + cs[1..];
      GetById(cs[1..], id)
  }

  /** Whether another customer than `id` already has `email`. */
  predicate EmailTaken(cs: seq<Customer>, email: string, id: Uuid)
  {
    exists c | c in cs :: c.email == email && c.id != id
  }

  /** The index of the customer with `id`. */
  function IndexOf(cs: seq<Customer>, id: Uuid): (i: nat)
    requires id in CustomerIds(cs)
    ensures i < |cs| && cs[i].id == id
  {
    if cs[0].id == id then 0
    else
      assert cs == [cs[0]] + cs[1..];
      1 + IndexOf(cs[1..], id)
  }

  /** The table without the customer `id`, in the same order. */
  function RemoveId(cs: seq<Customer>, id: Uuid): (r: seq<Customer>)
    ensures forall c :: c in r <==> c in cs && c.id != id
    ensures |r| <= |cs|
    ensures UniqueCustomers(cs) ==> UniqueCustomers(r)
  {
    if cs == [] then []
    else
      assert cs == [cs[0]] + cs[1..];
      var rest := RemoveId(cs[1..], id);
      if cs[0].id == id then rest
      else
        var r := [cs[0]] + rest;
        assert UniqueCustomers(cs) ==> UniqueCustomers(r) by {
          if UniqueCustomers(cs) {
            forall i, j | 0 <= i < j < |r| ensures r[i].id != r[j].id && r[i].email != r[j].email {
              if i == 0 {
                assert r[j] in cs[1..];
              }
            }
          }
        }
        r
  }

  /** A row with a new id and an email nobody has can be appended. */
  lemma AppendCustomerKeepsUnique(cs: seq<Customer>, c: Customer)
    requires UniqueCustomers(cs) && c.id !in CustomerIds(cs) && !EmailTaken(cs, c.email, c.id)
    ensures UniqueCustomers(cs + [c])
  {
    forall i, j | 0 <= i < j < |cs + [c]| ensures (cs + [c])[i].id != (cs + [c])[j].id && (cs + [c])[i].email != (cs + [c])[j].email {
      if j == |cs| {
        assert cs[i] in cs;
      }
    }
  }

  /** `create`: a new customer under the fresh id, the name trimmed and the
      email trimmed and lower-cased, stamped with the same creation and
      update time. An email another customer has violates the unique
      constraint and nothing is stored. */
  method Create(db: Database, id: Uuid, name: string, email: string, now: Instant)
    returns (r: Result<Customer, ApiException>)
    requires db.Valid() && id !in CustomerIds(db.customers)
    modifies db
    ensures db.Valid() && db.tasks == old(db.tasks) && db.notes == old(db.notes)
    ensures EmailTaken(old(db.customers), TrimLower(email), id) ==>
      r == Err(DataIntegrityViolation) && db.customers == old(db.customers)
    ensures !EmailTaken(old(db.customers), TrimLower(email), id) ==>
      r == Ok(Customer(id, Trim(name), TrimLower(email), now, now))
      && db.customers == old(db.customers) + [r.value]
  {
    var entity := Customer(id, Trim(name), TrimLower(email), now, now);
    if EmailTaken(db.customers, entity.email, id) {
      return Err(DataIntegrityViolation);
    }
    AppendCustomerKeepsUnique(db.customers, entity);
    db.customers := db.customers + [entity];
    r := Ok(entity);
  }

  /** `update`: the customer keeps its id and creation time and takes the
      new name and email, normalised as `create` does; the update time moves
      only when a column changed. Unknown ids and taken emails change
      nothing. */
  method Update(db: Database, id: Uuid, name: string, email: string, now: Instant)
    returns (r: Result<Customer, ApiException>)
    requires db.Valid()
    modifies db
    ensures db.Valid() && db.tasks == old(db.tasks) && db.notes == old(db.notes)
    ensures id !in CustomerIds(old(db.customers)) ==>
      r == Err(CustomerNotFound(id)) && db.customers == old(db.customers)
    ensures id in CustomerIds(old(db.customers)) && EmailTaken(old(db.customers), TrimLower(email), id) ==>
      r == Err(DataIntegrityViolation) && db.customers == old(db.customers)
    ensures r.Ok? <==> id in CustomerIds(old(db.customers)) && !EmailTaken(old(db.customers), TrimLower(email), id)
    ensures r.Ok? ==>
      var i := IndexOf(old(db.customers), id);
      var before := old(db.customers)[i];
      && r.value.id == id && r.value.createdAt == before.createdAt
      && r.value.name == Trim(name) && r.value.email == TrimLower(email)
      && r.value.updatedAt == (if before.name == r.value.name && before.email == r.value.email
                               then before.updatedAt else now)
      && db.customers == old(db.customers)[i := r.value]
  {
    var found := GetById(db.customers, id);
    if found.Err? {
      return found;
    }
    var newName, newEmail := Trim(name), TrimLower(email);
    if EmailTaken(db.customers, newEmail, id) {
      return Err(DataIntegrityViolation);
    }
    var i := IndexOf(db.customers, id);
    var before := db.customers[i];
    var dirty := before.name != newName || before.email != newEmail;
    var saved := before.(name := newName, email := newEmail, updatedAt := if dirty then now else before.updatedAt);
    var cs := db.customers[i := saved];
    assert UniqueCustomers(cs) by {
      forall a, b | 0 <= a < b < |cs| ensures cs[a].id != cs[b].id && cs[a].email != cs[b].email {
        if a == i {
          assert db.customers[b] in db.customers;
        } else if b == i {
          assert db.customers[a] in db.customers;
        }
      }
    }
    db.customers := cs;
    r := Ok(saved);
  }

  /** `delete`: the customer is removed and every other one kept; a later
      `getById` of it is not found. */
  method Delete(db: Database, id: Uuid) returns (r: Result<(), ApiException>)
    requires db.Valid()
    modifies db
    ensures db.Valid() && db.tasks == old(db.tasks) && db.notes == old(db.notes)
    ensures id !in CustomerIds(old(db.customers)) ==>
      r == Err(CustomerNotFound(id)) && db.customers == old(db.customers)
    ensures id in CustomerIds(old(db.customers)) ==>
      r == Ok(()) && db.customers == RemoveId(old(db.customers), id)
    ensures GetById(db.customers, id) == Err(CustomerNotFound(id))
  {
    if id !in CustomerIds(db.customers) {
      return Err(CustomerNotFound(id));
    }
    db.customers := RemoveId(db.customers, id);
    r := Ok(());
  }
}
