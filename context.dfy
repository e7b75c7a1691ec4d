/** The database (FreightERPContext): its tables, the unique indexes and foreign keys
    declared in OnModelCreating, and the rows SeedData inserts. */
module FreightContext {
  import opened Wrappers
  import opened Calendar
  import opened Models

  /** The three pricing rules seeded with the schema: Air, Sea and Road, all active. */
  const SeedPricingRules: seq<PricingRule> := [
    PricingRule(1, "Air", 15.00, 0.05, 500.00, true),
    PricingRule(2, "Sea", 8.00, 0.02, 300.00, true),
    PricingRule(3, "Road", 10.00, 0.03, 200.00, true)
  ]

  /** 2026-01-01T00:00:00Z, the creation time of the seeded administrator. */
  const NewYear2026: Instant := DaysFromCivil(Civil(2026, 1, 1)) * SecondsPerDay

  /** The seeded administrator account. */
  const SeedUsers: seq<User> := [
    User(1, "admin", "TempHash123", "System Administrator", "admin@freighterp.com",
         "Admin", NewYear2026, true)
  ]

  /** Row `i` of a table has id `i + 1`: ids are assigned by the database in insertion
      order and rows are never removed (deletion only deactivates). */
  ghost predicate IdsArePositions<T>(s: seq<T>, id: T -> nat) {
    forall i :: 0 <= i < |s| ==> id(s[i]) == i + 1
  }

  /** A unique index on `key`. */
  ghost predicate Distinct<T>(s: seq<T>, key: T -> string) {
    forall i, j :: 0 <= i < |s| && 0 <= j < |s| && i != j ==> key(s[i]) != key(s[j])
  }

  /** Whether some row other than row `except` already has key `k`. */
  predicate Taken<T>(s: seq<T>, key: T -> string, k: string, except: int) {
    exists i | 0 <= i < |s| :: i != except && key(s[i]) == k
  }

  /** A row appended under the next id keeps ids equal to positions. */
  lemma AppendKeepsPositions<T>(s: seq<T>, x: T, id: T -> nat)
    requires IdsArePositions(s, id) && id(x) == |s| + 1
    ensures IdsArePositions(s + [x], id)
  {
  }

  /** A row whose key is not taken keeps a unique index unique. */
  lemma AppendKeepsDistinct<T>(s: seq<T>, x: T, key: T -> string)
    requires Distinct(s, key) && !Taken(s, key, key(x), -1)
    ensures Distinct(s + [x], key)
  {
    var t := s + [x];
    forall i, j | 0 <= i < |t| && 0 <= j < |t| && i != j ensures key(t[i]) != key(t[j]) {
      if i == |s| { assert t[j] == s[j]; }
      else if j == |s| { assert t[i] == s[i]; }
      else { assert t[i] == s[i] && t[j] == s[j]; }
    }
  }

  /** The primary keys. */
  function UserIdOf(u: User): nat { u.id }
  function CustomerIdOf(c: Customer): nat { c.id }
  function VendorIdOf(v: Vendor): nat { v.id }
  function ShipmentIdOf(s: Shipment): nat { s.id }
  function EntryIdOf(e: StatusEntry): nat { e.id }
  function InvoiceIdOf(i: Invoice): nat { i.id }
  function RuleIdOf(p: PricingRule): nat { p.id }

  /** The keys of the unique indexes. */
  function UsernameOf(u: User): string { u.username }
  function ShipmentNumberOf(s: Shipment): string { s.number }
  function InvoiceNumberOf(i: Invoice): string { i.number }

  /** Whether `id` is the id of a row of a table with `n` rows. */
  predicate IsId(id: int, n: nat) {
    1 <= id <= n
  }

  /** Every shipment names an existing customer and vendor, every ledger entry an
      existing shipment, every invoice an existing shipment and customer. */
  ghost predicate ForeignKeys(customers: seq<Customer>, vendors: seq<Vendor>, shipments: seq<Shipment>,
                              history: seq<StatusEntry>, invoices: seq<Invoice>)
  {
    (forall i :: 0 <= i < |shipments| ==>
       IsId(shipments[i].customerId, |customers|) && IsId(shipments[i].vendorId, |vendors|))
    && (forall i :: 0 <= i < |history| ==> IsId(history[i].shipmentId, |shipments|))
    && (forall i :: 0 <= i < |invoices| ==>
          IsId(invoices[i].shipmentId, |shipments|) && IsId(invoices[i].customerId, |customers|))
  }

  /** A new shipment whose customer and vendor exist, with a ledger entry for it, keeps
      the foreign keys. */
  lemma NewShipmentKeepsForeignKeys(customers: seq<Customer>, vendors: seq<Vendor>, shipments: seq<Shipment>,
                                    history: seq<StatusEntry>, invoices: seq<Invoice>, s: Shipment, e: StatusEntry)
    requires ForeignKeys(customers, vendors, shipments, history, invoices)
    requires IsId(s.customerId, |customers|) && IsId(s.vendorId, |vendors|) && e.shipmentId == |shipments| + 1
    ensures ForeignKeys(customers, vendors, shipments + [s], history + [e], invoices)
  {
  }

  /** The tables. Controllers are methods that take the store and change it. */
  class Store {
    var users: seq<User>
    var customers: seq<Customer>
    var vendors: seq<Vendor>
    var shipments: seq<Shipment>
    var history: seq<StatusEntry>
    var invoices: seq<Invoice>
    var pricingRules: seq<PricingRule>

    ghost predicate Keys()
      reads this
    {
      IdsArePositions(users, UserIdOf)
      && IdsArePositions(customers, CustomerIdOf)
      && IdsArePositions(vendors, VendorIdOf)
      && IdsArePositions(shipments, ShipmentIdOf)
      && IdsArePositions(history, EntryIdOf)
      && IdsArePositions(invoices, InvoiceIdOf)
      && IdsArePositions(pricingRules, RuleIdOf)
    }

    /** The unique indexes of OnModelCreating. */
    ghost predicate UniqueIndexes()
      reads this
    {
      Distinct(users, UsernameOf)
      && Distinct(shipments, ShipmentNumberOf)
      && Distinct(invoices, InvoiceNumberOf)
    }

    /** The foreign keys among customers, vendors, shipments, the ledger and invoices. */
    ghost predicate References()
      reads this
    {
      ForeignKeys(customers, vendors, shipments, history, invoices)
    }

    ghost predicate Valid()
      reads this
    {
      Keys() && UniqueIndexes() && References()
    }

    /** A freshly migrated database: the seeded pricing rules and administrator. */
    constructor ()
      ensures Valid()
      ensures pricingRules == SeedPricingRules && users == SeedUsers
      ensures customers == [] && vendors == [] && shipments == [] && history == [] && invoices == []
    {
      users := SeedUsers;
      customers, vendors, shipments, history, invoices := [], [], [], [], [];
      pricingRules := SeedPricingRules;
    }

    /** With its foreign keys intact, a store without customers has no shipments, no
        ledger entries and no invoices. */
    lemma NoCustomersNoDocuments()
      requires Valid() && customers == []
      ensures shipments == [] && history == [] && invoices == []
    {
      assert |shipments| > 0 ==> IsId(shipments[0].customerId, |customers|);
      assert |invoices| > 0 ==> IsId(invoices[0].customerId, |customers|);
      assert |history| > 0 ==> IsId(history[0].shipmentId, |shipments|);
    }
  }

  /** The positions of the active rules for `mode`. */
  function ActiveRulesFor(rules: seq<PricingRule>, mode: string): set<nat> {
    set i: nat | i < |rules| && rules[i].isActive && rules[i].transportMode == mode
  }

  /** The seeded rules give exactly one active rule for each of the three modes, and
      no other active rule. */
  lemma SeedRulesOnePerMode()
    ensures ActiveRulesFor(SeedPricingRules, "Air") == {0}
    ensures ActiveRulesFor(SeedPricingRules, "Sea") == {1}
    ensures ActiveRulesFor(SeedPricingRules, "Road") == {2}
    ensures forall mode :: mode !in ["Air", "Sea", "Road"] ==> ActiveRulesFor(SeedPricingRules, mode) == {}
  {

  }
}
