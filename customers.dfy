/** The customer directory (CustomersController): the paged, searchable list of active
    customers, and creating, replacing and deactivating a customer. */
module Customers {
  import opened Wrappers
  import opened Text
  import opened Queries
  import opened Models
  import opened FreightContext

  /** A blank search matches everybody; otherwise the name, the email or the phone must
      contain it (case-sensitive, as SQLite's `instr`). */
  predicate MatchesSearch(c: Customer, search: Option<string>) {
    IsBlank(search) || Contains(c.name, search.value) || Contains(c.email, search.value)
    || Contains(c.phone, search.value)
  }

  /** The customers GET api/customers considers: the active ones that match the search. */
  predicate Listed(c: Customer, search: Option<string>) {
    c.isActive && MatchesSearch(c, search)
  }

  function CreatedAtKey(c: Customer): real { c.createdAt as real }

  /** All listed customers, newest first, before paging. */
  function Matching(customers: seq<Customer>, search: Option<string>): (r: seq<Customer>)
    ensures forall c :: c in r <==> c in customers && Listed(c, search)
    ensures |r| == CountWhere(customers, c => Listed(c, search))
    ensures forall a, b :: 0 <= a < b < |r| ==> r[a].createdAt >= r[b].createdAt
  {
    var r := SelectDescending(customers, c => Listed(c, search), CreatedAtKey);
    assert forall a, b :: 0 <= a < b < |r| ==> CreatedAtKey(r[a]) >= CreatedAtKey(r[b]);
    r
  }

  /** The list is a reordering of the listed customers: each exactly as often as in the table. */
  lemma MatchingPermutes(customers: seq<Customer>, search: Option<string>)
    ensures multiset(Matching(customers, search)) == multiset(Filter(customers, c => Listed(c, search)))
  {
  }

  /** One page of the list and the `X-Total-Count` header. */
  datatype CustomerPage = CustomerPage(items: seq<Customer>, totalCount: nat)

  /** The rows a page skips, `(page - 1) * pageSize` in unchecked 32-bit `int`
      arithmetic: exact while the product fits, wrapped around beyond. */
  function PageSkip(page: Int32, pageSize: Int32): Int32
  {
    Wrap32((page - 1) * pageSize)
  }

  /** The skip is exact while the product fits an `int`. */
  lemma PageSkipExact(page: Int32, pageSize: Int32)
    requires -0x8000_0000 <= (page - 1) * pageSize < 0x8000_0000
    ensures PageSkip(page, pageSize) == (page - 1) * pageSize
  {
  }

  /** GET api/customers?search=&page=&pageSize=: skip `(page - 1) * pageSize` listed
      customers and take `pageSize`, with the number of listed customers alongside. A
      negative skip skips nothing and a negative page size takes everything (SQLite's
      OFFSET and LIMIT). */
  function GetCustomers(customers: seq<Customer>, search: Option<string>, page: Int32, pageSize: Int32)
    : (r: CustomerPage)
    ensures r.totalCount == |Matching(customers, search)|
    ensures pageSize >= 0 ==> |r.items| == Min(pageSize, r.totalCount - PageStart(r.totalCount, PageSkip(page, pageSize)))
    ensures pageSize < 0 ==> |r.items| == r.totalCount - PageStart(r.totalCount, PageSkip(page, pageSize))
    ensures RunAt(r.items, Matching(customers, search), PageStart(r.totalCount, PageSkip(page, pageSize)))
  {
    PageOf(Matching(customers, search), page, pageSize)
  }

  /** Page `page` of `all`, with the length of `all` as the total. */
  function PageOf(all: seq<Customer>, page: Int32, pageSize: Int32): (r: CustomerPage)
    ensures r.totalCount == |all|
    ensures pageSize >= 0 ==> |r.items| == Min(pageSize, r.totalCount - PageStart(r.totalCount, PageSkip(page, pageSize)))
    ensures pageSize < 0 ==> |r.items| == r.totalCount - PageStart(r.totalCount, PageSkip(page, pageSize))
    ensures RunAt(r.items, all, PageStart(r.totalCount, PageSkip(page, pageSize)))
  {
    CustomerPage(Page(all, PageSkip(page, pageSize), pageSize), |all|)
  }

  /** The skip wraps around: page 65537 of 65536 skips 2^32 rows, which is 0 in a
      32-bit `int`, and page 32769 of 65536 skips 2^31, which is -2^31 and so skips
      nothing. Both return the first page. */
  lemma PageSkipWraps(customers: seq<Customer>, search: Option<string>)
    ensures GetCustomers(customers, search, 65537, 65536) == GetCustomers(customers, search, 1, 65536)
    ensures GetCustomers(customers, search, 32769, 65536) == GetCustomers(customers, search, 1, 65536)
  {
    assert PageSkip(65537, 65536) == 0;
    assert PageSkip(32769, 65536) == -0x8000_0000;
    assert PageSkip(1, 65536) == 0;
  }

  /** Every customer on a page is listed, and a page is newest first. */
  lemma PageListedInOrder(customers: seq<Customer>, search: Option<string>, page: Int32, pageSize: Int32)
    ensures var items := GetCustomers(customers, search, page, pageSize).items;
            (forall c :: c in items ==> c in customers && Listed(c, search))
            && forall a, b :: 0 <= a < b < |items| ==> items[a].createdAt >= items[b].createdAt
  {
    PageMembers(Matching(customers, search), PageSkip(page, pageSize), pageSize);
    PageKeepsOrder(Matching(customers, search), PageSkip(page, pageSize), pageSize);
  }

  lemma PageKeepsOrder(all: seq<Customer>, skip: int, take: int)
    requires forall a, b :: 0 <= a < b < |all| ==> all[a].createdAt >= all[b].createdAt
    ensures var p := Page(all, skip, take);
            forall a, b :: 0 <= a < b < |p| ==> p[a].createdAt >= p[b].createdAt
  {
    var p := Page(all, skip, take);
    var lo := PageStart(|all|, skip);
    forall a, b | 0 <= a < b < |p| ensures p[a].createdAt >= p[b].createdAt {
      assert p[a] == all[lo + a] && p[b] == all[lo + b];
    }
  }

  /** Paging loses nobody: with a positive page size, the listed customer at position
      `(page - 1) * pageSize + i` of the whole list, for `i < pageSize`, is item `i` of
      page `page`, as long as the position fits an `int`. */
  lemma EveryMatchOnItsPage(customers: seq<Customer>, search: Option<string>, page: Int32, pageSize: Int32,
                            i: nat, k: nat)
    requires 1 <= page && 0 < pageSize && i < pageSize && k == (page - 1) * pageSize + i
    requires k < |Matching(customers, search)| && k < 0x8000_0000
    ensures var p := GetCustomers(customers, search, page, pageSize).items;
            i < |p| && p[i] == Matching(customers, search)[k]
  {
    PageStartFits(page, pageSize, i, k);
    PageSkipExact(page, pageSize);
    PageHasIndex(Matching(customers, search), (page - 1) * pageSize, pageSize, i);
  }

  /** Item `i` of a page is the element `i` places past the skip. */
  lemma PageHasIndex(all: seq<Customer>, skip: nat, take: nat, i: nat)
    requires i < take && skip + i < |all|
    ensures i < |Page(all, skip, take)| && Page(all, skip, take)[i] == all[skip + i]
  {
    assert PageStart(|all|, skip) == skip;
  }

  /** POST api/customers: the body is stored as a new row under the next id. */
  method CreateCustomer(db: Store, body: Customer) returns (r: Reply<Customer>)
    requires db.Valid()
    modifies db
    ensures db.Valid()
    ensures r == Ok(body.(id := |old(db.customers)| + 1))
    ensures db.customers == old(db.customers) + [r.value]
    ensures unchanged(db`users, db`vendors, db`shipments, db`history, db`invoices, db`pricingRules)
  {
    var customer := body.(id := |db.customers| + 1);
    db.customers := db.customers + [customer];
    return Ok(customer);
  }

  /** PUT api/customers/{id}: replace every column of customer `id` with the body. 400
      when the route and body ids differ, 404 when there is no such customer. */
  method UpdateCustomer(db: Store, id: int, body: Customer) returns (r: Reply<()>)
    requires db.Valid()
    modifies db
    ensures db.Valid()
    ensures r == Ok(()) || r == NotFound || r == BadRequest("")
    ensures r.BadRequest? <==> id != body.id
    ensures r.NotFound? <==> id == body.id && !IsId(id, |old(db.customers)|)
    ensures !r.Ok? ==> unchanged(db)
    ensures r.Ok? ==> db.customers == old(db.customers)[id - 1 := body]
    ensures unchanged(db`users, db`vendors, db`shipments, db`history, db`invoices, db`pricingRules)
  {
    if id != body.id {
      return BadRequest("");
    }
    if !IsId(id, |db.customers|) {
      return NotFound;
    }
    db.customers := db.customers[id - 1 := body];
    return Ok(());
  }

  /** A customer after a delete: inactive, every other column as it was. */
  function Deactivated(c: Customer): (r: Customer)
    ensures !r.isActive
    ensures r.(isActive := c.isActive) == c
  {
    c.(isActive := false)
  }

  /** DELETE api/customers/{id}: 404 when there is no such customer; otherwise the row
      stays and is only marked inactive. */
  method DeleteCustomer(db: Store, id: int) returns (r: Reply<()>)
    requires db.Valid()
    modifies db
    ensures db.Valid()
    ensures r == Ok(()) || r == NotFound
    ensures r.NotFound? <==> !IsId(id, |old(db.customers)|)
    ensures r.NotFound? ==> unchanged(db)
    ensures r.Ok? ==> db.customers == old(db.customers)[id - 1 := Deactivated(old(db.customers)[id - 1])]
    ensures unchanged(db`users, db`vendors, db`shipments, db`history, db`invoices, db`pricingRules)
  {
    if !IsId(id, |db.customers|) {
      return NotFound;
    }
    db.customers := db.customers[id - 1 := Deactivated(db.customers[id - 1])];
    return Ok(());
  }

  /** A deactivated customer is never listed again, whatever the search, while every
      other customer is listed exactly as before. */
  lemma DeletedNotListed(customers: seq<Customer>, k: nat, search: Option<string>)
    requires k < |customers|
    ensures var after := customers[k := Deactivated(customers[k])];
            Deactivated(customers[k]) !in Matching(after, search)
            && forall c :: c != Deactivated(customers[k]) && c != customers[k] ==>
                 (c in Matching(after, search) <==> c in Matching(customers, search))
  {
    var after := customers[k := Deactivated(customers[k])];
    forall c | c != Deactivated(customers[k]) && c != customers[k]
      ensures c in after <==> c in customers
    {
      if c in customers {
        var i :| 0 <= i < |customers| && customers[i] == c;
        assert after[i] == c;
      }
    }
  }

  /** Deleting twice leaves the store as deleting once. */
  lemma DeactivatedIdempotent(c: Customer)
    ensures Deactivated(Deactivated(c)) == Deactivated(c)
  {
  }
}
