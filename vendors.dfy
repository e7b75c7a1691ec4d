/** The carrier directory (VendorsController): the searchable list of active vendors,
    and creating, replacing and deactivating a vendor. */
module Vendors {
  import opened Wrappers
  import opened Text
  import opened Queries
  import opened Models
  import opened FreightContext

  /** A blank search matches every vendor; otherwise the name or the email must contain
      it (case-sensitive). */
  predicate MatchesSearch(v: Vendor, search: Option<string>) {
    IsBlank(search) || Contains(v.name, search.value) || Contains(v.email, search.value)
  }

  /** A blank service type matches every vendor; otherwise it must be equal. */
  predicate MatchesService(v: Vendor, serviceType: Option<string>) {
    IsBlank(serviceType) || v.serviceType == serviceType.value
  }

  predicate Listed(v: Vendor, search: Option<string>, serviceType: Option<string>) {
    v.isActive && MatchesSearch(v, search) && MatchesService(v, serviceType)
  }

  function CreatedAtKey(v: Vendor): real { v.createdAt as real }

  /** GET api/vendors?search=&serviceType=: every listed vendor, newest first, without
      paging. */
  function GetVendors(vendors: seq<Vendor>, search: Option<string>, serviceType: Option<string>)
    : (r: seq<Vendor>)
    ensures forall v :: v in r <==> v in vendors && Listed(v, search, serviceType)
    ensures |r| == CountWhere(vendors, v => Listed(v, search, serviceType))
    ensures forall a, b :: 0 <= a < b < |r| ==> r[a].createdAt >= r[b].createdAt
  {
    var r := SelectDescending(vendors, v => Listed(v, search, serviceType), CreatedAtKey);
    assert forall a, b :: 0 <= a < b < |r| ==> CreatedAtKey(r[a]) >= CreatedAtKey(r[b]);
    r
  }

  /** The list is a reordering of the listed vendors. */
  lemma GetVendorsPermutes(vendors: seq<Vendor>, search: Option<string>, serviceType: Option<string>)
    ensures multiset(GetVendors(vendors, search, serviceType)) == multiset(Filter(vendors, v => Listed(v, search, serviceType)))
  {
  }

  /** Without a search and a service type the list is every active vendor. */
  lemma NoFiltersListsActive(vendors: seq<Vendor>, v: Vendor)
    ensures v in GetVendors(vendors, None, None) <==> v in vendors && v.isActive
  {
  }

  /** A service-type filter only ever narrows the list. */
  lemma ServiceFilterNarrows(vendors: seq<Vendor>, search: Option<string>, serviceType: Option<string>)
    ensures forall v :: v in GetVendors(vendors, search, serviceType) ==> v in GetVendors(vendors, search, None)
  {
  }

  /** POST api/vendors: the body is stored as a new row under the next id. */
  method CreateVendor(db: Store, body: Vendor) returns (r: Reply<Vendor>)
    requires db.Valid()
    modifies db
    ensures db.Valid()
    ensures r == Ok(body.(id := |old(db.vendors)| + 1))
    ensures db.vendors == old(db.vendors) + [r.value]
    ensures unchanged(db`users, db`customers, db`shipments, db`history, db`invoices, db`pricingRules)
  {
    var vendor := body.(id := |db.vendors| + 1);
    db.vendors := db.vendors + [vendor];
    return Ok(vendor);
  }

  /** PUT api/vendors/{id}: replace every column of vendor `id` with the body. 400 when
      the route and body ids differ, 404 when there is no such vendor. */
  method UpdateVendor(db: Store, id: int, body: Vendor) returns (r: Reply<()>)
    requires db.Valid()
    modifies db
    ensures db.Valid()
    ensures r == Ok(()) || r == NotFound || r == BadRequest("")
    ensures r.BadRequest? <==> id != body.id
    ensures r.NotFound? <==> id == body.id && !IsId(id, |old(db.vendors)|)
    ensures !r.Ok? ==> unchanged(db)
    ensures r.Ok? ==> db.vendors == old(db.vendors)[id - 1 := body]
    ensures unchanged(db`users, db`customers, db`shipments, db`history, db`invoices, db`pricingRules)
  {
    if id != body.id {
      return BadRequest("");
    }
    if !IsId(id, |db.vendors|) {
      return NotFound;
    }
    db.vendors := db.vendors[id - 1 := body];
    return Ok(());
  }

  /** A vendor after a delete: inactive, every other column as it was. */
  function Deactivated(v: Vendor): (r: Vendor)
    ensures !r.isActive
    ensures r.(isActive := v.isActive) == v
  {
    v.(isActive := false)
  }

  /** DELETE api/vendors/{id}: 404 when there is no such vendor; otherwise the row stays
      and is only marked inactive. */
  method DeleteVendor(db: Store, id: int) returns (r: Reply<()>)
    requires db.Valid()
    modifies db
    ensures db.Valid()
    ensures r == Ok(()) || r == NotFound
    ensures r.NotFound? <==> !IsId(id, |old(db.vendors)|)
    ensures r.NotFound? ==> unchanged(db)
    ensures r.Ok? ==> db.vendors == old(db.vendors)[id - 1 := Deactivated(old(db.vendors)[id - 1])]
    ensures unchanged(db`users, db`customers, db`shipments, db`history, db`invoices, db`pricingRules)
  {
    if !IsId(id, |db.vendors|) {
      return NotFound;
    }
    db.vendors := db.vendors[id - 1 := Deactivated(db.vendors[id - 1])];
    return Ok(());
  }

  /** A deactivated vendor is never listed again, whatever the filters, while every
      other vendor is listed exactly as before; its shipments keep pointing at it. */
  lemma DeletedNotListed(vendors: seq<Vendor>, k: nat, search: Option<string>, serviceType: Option<string>)
    requires k < |vendors|
    ensures var after := vendors[k := Deactivated(vendors[k])];
            Deactivated(vendors[k]) !in GetVendors(after, search, serviceType)
            && forall v :: v != Deactivated(vendors[k]) && v != vendors[k] ==>
                 (v in GetVendors(after, search, serviceType) <==> v in GetVendors(vendors, search, serviceType))
  {
    var after := vendors[k := Deactivated(vendors[k])];
    forall v | v != Deactivated(vendors[k]) && v != vendors[k]
      ensures v in after <==> v in vendors
    {
      if v in vendors {
        var i :| 0 <= i < |vendors| && vendors[i] == v;
        assert after[i] == v;
      }
    }
  }
}
