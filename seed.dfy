/** The demonstration data loader (SeedController.PopulateTestData): five customers,
    five vendors, ten shipments, and one invoice per delivered shipment, all dated
    relative to the moment of the call. */
module Seed {
  import opened Wrappers
  import opened Calendar
  import opened Text
  import opened Rounding
  import opened Numbering
  import opened Queries
  import opened Models
  import opened FreightContext

  const AlreadySeededMessage := "Database already has data. Clear it first if you want to reseed."
  const SeededMessage := "Test data populated successfully!"
  const DateRangeMessage := "Error: The added or subtracted value results in an un-representable DateTime. (Parameter 'value')"

  /** The furthest back any seeded date lies. */
  const OldestOffsetDays: nat := 60

  /** Whether all the seeded dates fall on or after 0001-01-01. */
  predicate CanSeed(now: Instant) {
    OldestOffsetDays * SecondsPerDay <= now
  }

  /** `now.AddDays(-k)`. */
  function DaysAgo(now: Instant, k: nat): (t: Instant)
    requires k <= OldestOffsetDays && CanSeed(now)
    ensures now - t == k * SecondsPerDay
  {
    now - k * SecondsPerDay
  }

  /** The seeded customers; the table is empty, so their ids are 1 to 5. */
  function SeedCustomers(now: Instant): (cs: seq<Customer>)
    requires CanSeed(now)
    ensures |cs| == 5
    ensures forall k :: 0 <= k < |cs| ==> cs[k].id == k + 1 && cs[k].isActive && cs[k].createdAt < now
  {
    [ Customer(1, "Acme Corporation", "John Smith", "john@acme.com", "+1-555-0101",
               "123 Business St", "New York", "USA", DaysAgo(now, 60), true),
      Customer(2, "Global Traders Ltd", "Sarah Johnson", "sarah@globaltraders.com",
               "+44-20-7946-0958", "456 Commerce Ave", "London", "UK", DaysAgo(now, 45), true),
      Customer(3, "Tech Solutions Inc", "Michael Chen", "michael@techsolutions.com",
               "+86-10-6554-3210", "789 Innovation Blvd", "Beijing", "China", DaysAgo(now, 30), true),
      Customer(4, "Euro Imports GmbH", "Hans Mueller", "hans@euroimports.de",
               "+49-30-1234-5678", "321 Export Strasse", "Berlin", "Germany", DaysAgo(now, 20), true),
      Customer(5, "Pacific Logistics Co", "Yuki Tanaka", "yuki@pacificlog.jp",
               "+81-3-5555-1234", "654 Harbor Road", "Tokyo", "Japan", DaysAgo(now, 15), true) ]
  }

  /** The seeded vendors, appended after `before` existing vendors (the guard looks at
      customers only). They have no city or country. */
  function SeedVendors(now: Instant, before: nat): (vs: seq<Vendor>)
    requires CanSeed(now)
    ensures |vs| == 5
    ensures forall k :: 0 <= k < |vs| ==> vs[k].id == before + k + 1 && vs[k].isActive
  {
    [ Vendor(before + 1, "SkyFreight Airlines", "David Wilson", "david@skyfreight.com",
             "+1-555-0201", "Air", "100 Airport Rd", "", "", DaysAgo(now, 50), true),
      Vendor(before + 2, "Ocean Shipping Lines", "Maria Garcia", "maria@oceanship.com",
             "+1-555-0202", "Sea", "200 Port Ave", "", "", DaysAgo(now, 50), true),
      Vendor(before + 3, "Express Road Transport", "Robert Brown", "robert@expressroad.com",
             "+1-555-0203", "Road", "300 Highway Blvd", "", "", DaysAgo(now, 50), true),
      Vendor(before + 4, "Global Air Cargo", "Lisa Anderson", "lisa@globalair.com",
             "+44-20-7946-0959", "Air", "400 Terminal St", "", "", DaysAgo(now, 40), true),
      Vendor(before + 5, "FastTrack Trucking", "James Taylor", "james@fasttrack.com",
             "+1-555-0204", "Road", "500 Logistics Ln", "", "", DaysAgo(now, 35), true) ]
  }

  /** The numbers of the seed shipments, as listed. */
  const SeedShipmentNumbers: seq<string> := [
    "SHP-20260101-001", "SHP-20260105-002", "SHP-20260110-003", "SHP-20260115-004",
    "SHP-20260120-005", "SHP-20260125-006", "SHP-20260210-009", "SHP-20260215-010",
    "SHP-20260201-012", "SHP-20260225-014"]

  predicate IsDelivered(s: Shipment) {
    s.status == Delivered
  }

  /** The six delivered seed shipments; `v` is the id of the vendor before the first
      seeded one. */
  function DeliveredSeedShipments(now: Instant, v: nat): (ss: seq<Shipment>)
    requires CanSeed(now)
    ensures |ss| == 6
    ensures forall k :: 0 <= k < |ss| ==>
              (ss[k].id == k + 1 && IsDelivered(ss[k]) && ss[k].actualDeliveryDate.Some?
               && 1 <= ss[k].customerId <= 5 && v + 1 <= ss[k].vendorId <= v + 5)
    ensures forall k :: 0 <= k < |ss| ==> ss[k].number == SeedShipmentNumbers[k]
  {
    [ Shipment(1, "SHP-20260101-001", 1, v + 1, "New York", "USA", "Los Angeles", "USA", "Air",
               150.5, 2.5, "Electronics", 2796.75, 2850.00, Delivered, DaysAgo(now, 55),
               DaysAgo(now, 53), Some(DaysAgo(now, 52)), 1, DaysAgo(now, 55), now),
      Shipment(2, "SHP-20260105-002", 2, v + 2, "London", "UK", "Singapore", "Singapore", "Sea",
               5000.0, 50.0, "Machinery", 41744.00, 42000.00, Delivered, DaysAgo(now, 50),
               DaysAgo(now, 20), Some(DaysAgo(now, 19)), 1, DaysAgo(now, 50), now),
      Shipment(3, "SHP-20260110-003", 3, v + 3, "Beijing", "China", "Shanghai", "China", "Road",
               800.0, 10.0, "Textiles", 8036.30, 8100.00, Delivered, DaysAgo(now, 45),
               DaysAgo(now, 43), Some(DaysAgo(now, 42)), 1, DaysAgo(now, 45), now),
      Shipment(4, "SHP-20260115-004", 1, v + 4, "New York", "USA", "Paris", "France", "Air",
               200.0, 3.0, "Documents", 3291.85, 3350.00, Delivered, DaysAgo(now, 40),
               DaysAgo(now, 38), Some(DaysAgo(now, 37)), 1, DaysAgo(now, 40), now),
      Shipment(5, "SHP-20260120-005", 4, v + 2, "Berlin", "Germany", "Mumbai", "India", "Sea",
               3500.0, 40.0, "Auto Parts", 28136.94, 28500.00, Delivered, DaysAgo(now, 35),
               DaysAgo(now, 10), Some(DaysAgo(now, 9)), 1, DaysAgo(now, 35), now),
      Shipment(6, "SHP-20260125-006", 5, v + 1, "Tokyo", "Japan", "San Francisco", "USA", "Air",
               120.0, 2.0, "Semiconductors", 2213.90, 2250.00, Delivered, DaysAgo(now, 30),
               DaysAgo(now, 28), Some(DaysAgo(now, 27)), 1, DaysAgo(now, 30), now) ]
  }

  /** The four open seed shipments: two in transit, one in transit past its expected
      delivery, one booked. */
  function OpenSeedShipments(now: Instant, v: nat): (ss: seq<Shipment>)
    requires CanSeed(now)
    ensures |ss| == 4
    ensures forall k :: 0 <= k < |ss| ==>
              (ss[k].id == k + 7 && !IsDelivered(ss[k])
               && 1 <= ss[k].customerId <= 5 && v + 1 <= ss[k].vendorId <= v + 5)
    ensures forall k :: 0 <= k < |ss| ==> ss[k].number == SeedShipmentNumbers[k + 6]
  {
    [ Shipment(7, "SHP-20260210-009", 1, v + 2, "New York", "USA", "Rotterdam", "Netherlands", "Sea",
               4200.0, 45.0, "Furniture", 33933.24, 0.0, InTransit, DaysAgo(now, 15),
               Later(now, 5), None, 1, DaysAgo(now, 15), now),
      Shipment(8, "SHP-20260215-010", 4, v + 5, "Berlin", "Germany", "Vienna", "Austria", "Road",
               600.0, 8.0, "Medical Equipment", 6015.72, 0.0, InTransit, DaysAgo(now, 10),
               Later(now, 2), None, 1, DaysAgo(now, 10), now),
      Shipment(9, "SHP-20260201-012", 2, v + 2, "London", "UK", "Sydney", "Australia", "Sea",
               6000.0, 60.0, "Construction Materials", 48340.30, 0.0, InTransit, DaysAgo(now, 25),
               DaysAgo(now, 2), None, 1, DaysAgo(now, 25), now),
      Shipment(10, "SHP-20260225-014", 1, v + 4, "New York", "USA", "London", "UK", "Air",
               175.0, 3.0, "Samples", 2904.25, 0.0, Booked, DaysAgo(now, 5),
               Later(now, 3), None, 1, DaysAgo(now, 5), now) ]
  }

  /** The listed numbers are distinct, so the seeded shipments satisfy the unique index
      on ShipmentNumber. */
  lemma SeedShipmentsDistinct(now: Instant, v: nat)
    requires CanSeed(now)
    ensures Distinct(SeedShipments(now, v), ShipmentNumberOf)
  {
    var ss := SeedShipments(now, v);
    SeedNumbersDistinct();
    forall i, j | 0 <= i < |ss| && 0 <= j < |ss| && i != j
      ensures ShipmentNumberOf(ss[i]) != ShipmentNumberOf(ss[j])
    {
      assert ss[i].number == SeedShipmentNumbers[i] && ss[j].number == SeedShipmentNumbers[j];
    }
  }

  /** No two listed numbers agree: their last two digits already differ. */
  lemma SeedNumbersDistinct()
    ensures forall i, j :: 0 <= i < j < |SeedShipmentNumbers| ==> SeedShipmentNumbers[i] != SeedShipmentNumbers[j]
  {
    var ns := SeedShipmentNumbers;
    var tails: seq<string> := ["01", "02", "03", "04", "05", "06", "09", "10", "12", "14"];
    assert forall k :: 0 <= k < |ns| ==> |ns[k]| == 16 && ns[k][14..16] == tails[k];
    forall i, j | 0 <= i < j < |ns|
      ensures ns[i] != ns[j]
    {
      assert tails[i] != tails[j] by {
        assert tails[i][0] != tails[j][0] || tails[i][1] != tails[j][1];
      }
    }
  }

  /** The ten seed shipments in the order they are listed; the table is empty, so their
      ids are 1 to 10. Their numbers are distinct. */
  function SeedShipments(now: Instant, v: nat): (ss: seq<Shipment>)
    requires CanSeed(now)
    ensures |ss| == 10
    ensures forall k :: 0 <= k < |ss| ==>
              (ss[k].id == k + 1 && 1 <= ss[k].customerId <= 5 && v + 1 <= ss[k].vendorId <= v + 5)
    ensures forall k :: 0 <= k < |ss| ==> ss[k].number == SeedShipmentNumbers[k]
  {
    var delivered, open := DeliveredSeedShipments(now, v), OpenSeedShipments(now, v);
    var ss := delivered + open;
    assert forall k :: 6 <= k < 10 ==> ss[k] == open[k - 6];
    ss
  }

  /** The delivered seed shipments are exactly the first six listed. */
  lemma SeedDeliveredFirst(now: Instant, v: nat)
    requires CanSeed(now)
    ensures Filter(SeedShipments(now, v), IsDelivered) == DeliveredSeedShipments(now, v)
  {
    var delivered, open := DeliveredSeedShipments(now, v), OpenSeedShipments(now, v);
    assert SeedShipments(now, v) == delivered + open;
    FilterAppend(delivered, open, IsDelivered);
    FilterAll(delivered, IsDelivered);
    FilterNone(open, IsDelivered);
  }

  /** Whether a shipment delivered at `delivered` counts as paid: delivery more than 30
      days before `now`. */
  predicate PaidBySeed(delivered: Instant, now: Instant) {
    delivered + 30 * SecondsPerDay < now
  }

  /** The invoice the loader derives from delivered shipment `s` with counter value
      `counter`. The table is empty, so its id is the counter. */
  function SeedInvoice(s: Shipment, counter: nat, now: Instant): (inv: Invoice)
    requires s.actualDeliveryDate.Some?
    ensures inv.id == counter && inv.shipmentId == s.id && inv.customerId == s.customerId
    ensures AllDigits(LastSegment(inv.number)) && ValueOf(LastSegment(inv.number)) == counter
  {
    var delivered := s.actualDeliveryDate.value;
    var paid := PaidBySeed(delivered, now);
    var total := Round2(s.actualCost * 1.18);
    DocNumberSequence("INV", DateOf(delivered), counter);
    Invoice(counter, DocNumber("INV", DateOf(delivered), counter), s.id, s.customerId, now,
            Later(delivered, 30), s.actualCost, Round2(s.actualCost * 0.18), total,
            if paid then Paid else Pending, if paid then total else 0.0,
            if paid then Some(Later(delivered, 25)) else None, 1, delivered)
  }

  /** The terms of a derived invoice: numbered with the delivery date, the actual cost as
      the subtotal, tax and total each rounded to cents from the exact amounts, due 30
      days after delivery, and paid in full 25 days after delivery (so before it fell
      due) exactly when delivery was more than 30 days ago, otherwise pending with nothing
      paid. */
  lemma SeedInvoiceTerms(s: Shipment, counter: nat, now: Instant)
    requires s.actualDeliveryDate.Some?
    ensures var inv := SeedInvoice(s, counter, now);
      && inv.number == DocNumber("INV", DateOf(s.actualDeliveryDate.value), counter)
      && inv.subTotal == s.actualCost
      && inv.taxAmount == Round2(s.actualCost * 0.18) && inv.totalAmount == Round2(s.actualCost * 1.18)
      && IsCents(inv.taxAmount) && IsCents(inv.totalAmount)
      && -0.005 <= inv.taxAmount - s.actualCost * 0.18 <= 0.005
      && -0.005 <= inv.totalAmount - s.actualCost * 1.18 <= 0.005
      && (inv.paymentStatus == Paid <==> PaidBySeed(s.actualDeliveryDate.value, now))
      && (inv.paymentStatus == Paid || inv.paymentStatus == Pending)
      && (inv.paymentStatus == Paid ==>
            inv.paidAmount == inv.totalAmount && inv.paidDate.Some? && inv.paidDate.value < inv.dueDate)
      && (inv.paymentStatus == Pending ==> inv.paidAmount == 0.0 && inv.paidDate.None?)
      && inv.dueDate - s.actualDeliveryDate.value == 30 * SecondsPerDay
      && inv.createdAt == s.actualDeliveryDate.value && inv.invoiceDate == now && inv.createdBy == 1
  {
  }

  /** The derived invoices, one per delivered shipment, numbered by a counter that runs
      over the whole list. */
  ghost predicate DerivedFrom(invoices: seq<Invoice>, delivered: seq<Shipment>, now: Instant)
    requires forall k :: 0 <= k < |delivered| ==> delivered[k].actualDeliveryDate.Some?
  {
    |invoices| == |delivered|
    && forall k :: 0 <= k < |invoices| ==> invoices[k] == SeedInvoice(delivered[k], k + 1, now)
  }

  /** The invoice loop: for each delivered shipment, in order, one invoice numbered with
      the running counter. */
  method DeriveSeedInvoices(delivered: seq<Shipment>, now: Instant) returns (invoices: seq<Invoice>)
    requires forall k :: 0 <= k < |delivered| ==> delivered[k].actualDeliveryDate.Some?
    ensures DerivedFrom(invoices, delivered, now)
  {
    invoices := [];
    var counter := 1;
    for i := 0 to |delivered|
      invariant counter == i + 1 && |invoices| == i
      invariant forall k :: 0 <= k < i ==> invoices[k] == SeedInvoice(delivered[k], k + 1, now)
    {
      var invoice := SeedInvoice(delivered[i], counter, now);
      DerivedSnoc(invoices, delivered, i, now);
      invoices := invoices + [invoice];
      counter := counter + 1;
    }
  }

  /** One more turn of the invoice loop keeps the derived prefix. */
  lemma DerivedSnoc(invoices: seq<Invoice>, delivered: seq<Shipment>, i: nat, now: Instant)
    requires i < |delivered| && |invoices| == i
    requires forall k :: 0 <= k < |delivered| ==> delivered[k].actualDeliveryDate.Some?
    requires forall k :: 0 <= k < i ==> invoices[k] == SeedInvoice(delivered[k], k + 1, now)
    ensures forall k :: 0 <= k < i + 1 ==>
              (invoices + [SeedInvoice(delivered[i], i + 1, now)])[k] == SeedInvoice(delivered[k], k + 1, now)
  {
  }

  /** The counter makes every derived invoice number distinct, whatever the delivery
      dates. */
  lemma DerivedNumbersDistinct(invoices: seq<Invoice>, delivered: seq<Shipment>, now: Instant)
    requires forall k :: 0 <= k < |delivered| ==> delivered[k].actualDeliveryDate.Some?
    requires DerivedFrom(invoices, delivered, now)
    ensures Distinct(invoices, InvoiceNumberOf)
  {
    forall i, j | 0 <= i < |invoices| && 0 <= j < |invoices| && i != j
      ensures InvoiceNumberOf(invoices[i]) != InvoiceNumberOf(invoices[j])
    {
      assert invoices[i] == SeedInvoice(delivered[i], i + 1, now);
      assert invoices[j] == SeedInvoice(delivered[j], j + 1, now);
    }
  }

  /** The seeded customers, vendors and shipments take the ids the inserts assign, and
      the shipments refer to seeded customers and vendors. */
  lemma SeedTablesKeyed(now: Instant, vendors: seq<Vendor>)
    requires CanSeed(now) && IdsArePositions(vendors, VendorIdOf)
    ensures IdsArePositions(SeedCustomers(now), CustomerIdOf)
    ensures IdsArePositions(vendors + SeedVendors(now, |vendors|), VendorIdOf)
    ensures IdsArePositions(SeedShipments(now, |vendors|), ShipmentIdOf)
    ensures forall k :: 0 <= k < 10 ==>
              IsId(SeedShipments(now, |vendors|)[k].customerId, 5)
              && IsId(SeedShipments(now, |vendors|)[k].vendorId, |vendors| + 5)
  {
    var all := vendors + SeedVendors(now, |vendors|);
    forall k | 0 <= k < |all| ensures VendorIdOf(all[k]) == k + 1 {
      if k >= |vendors| {
        assert all[k] == SeedVendors(now, |vendors|)[k - |vendors|];
      }
    }
  }

  /** The derived invoices take the ids the inserts assign and refer to seeded shipments
      and customers. */
  lemma SeedInvoicesKeyed(invoices: seq<Invoice>, now: Instant, v: nat)
    requires CanSeed(now)
    requires DerivedFrom(invoices, DeliveredSeedShipments(now, v), now)
    ensures |invoices| == 6
    ensures IdsArePositions(invoices, InvoiceIdOf)
    ensures forall k :: 0 <= k < |invoices| ==> IsId(invoices[k].shipmentId, 10) && IsId(invoices[k].customerId, 5)
  {
    var delivered := DeliveredSeedShipments(now, v);
    forall k | 0 <= k < |invoices|
      ensures InvoiceIdOf(invoices[k]) == k + 1
      ensures IsId(invoices[k].shipmentId, 10) && IsId(invoices[k].customerId, 5)
    {
      assert invoices[k] == SeedInvoice(delivered[k], k + 1, now);
    }
  }

  /** Tax and total are rounded separately, so the total can miss subtotal plus tax by a
      cent: 0.25 gives tax 0.04 (0.045 to even) and total 0.30 (0.295 to even). */
  lemma SeparateRoundingMissesByACent()
    ensures Round2(0.25 * 0.18) == 0.04 && Round2(0.25 * 1.18) == 0.30
    ensures Round2(0.25 * 1.18) != 0.25 + Round2(0.25 * 0.18)
  {
    Rounding.RoundHalfEvenUnique(4.5, 4);
    Rounding.RoundHalfEvenUnique(29.5, 30);
  }

  /** When the exact tax is already whole cents (as for every seeded actual cost, see
      SeededTaxesExact), the rounded total is exactly subtotal plus tax. */
  lemma TotalAgreesWhenTaxExact(c: Money)
    requires IsCents(c) && IsCents(c * 0.18)
    ensures Round2(c * 1.18) == c + Round2(c * 0.18)
  {
    Round2OfCents(c * 0.18);
    var x, y := c * 100.0, c * 0.18 * 100.0;
    assert c * 1.18 * 100.0 == x + y;
    assert (x + y).Floor == x.Floor + y.Floor;
    Round2OfCents(c * 1.18);
  }

  /** The seeded payment statuses: delivered 52, 19, 42, 37, 9 and 27 days ago, the
      first, third and fourth invoices are paid. */
  lemma SeededPayments(now: Instant)
    requires CanSeed(now)
    ensures var d := DeliveredSeedShipments(now, 0);
            [PaidBySeed(d[0].actualDeliveryDate.value, now), PaidBySeed(d[1].actualDeliveryDate.value, now),
             PaidBySeed(d[2].actualDeliveryDate.value, now), PaidBySeed(d[3].actualDeliveryDate.value, now),
             PaidBySeed(d[4].actualDeliveryDate.value, now), PaidBySeed(d[5].actualDeliveryDate.value, now)]
            == [true, false, true, true, false, false]
  {
  }

  /** The six seeded actual costs (2850.00, 42000.00, 8100.00, 3350.00, 28500.00 and
      2250.00) all have a tax of whole cents, so every seeded invoice's total is exactly
      its subtotal plus its tax, although the two are rounded separately. */
  lemma SeededTaxesExact(now: Instant, v: nat)
    requires CanSeed(now)
    ensures var d := DeliveredSeedShipments(now, v);
            forall k :: 0 <= k < |d| ==>
              IsCents(d[k].actualCost) && IsCents(d[k].actualCost * 0.18)
              && SeedInvoice(d[k], k + 1, now).totalAmount
                 == SeedInvoice(d[k], k + 1, now).subTotal + SeedInvoice(d[k], k + 1, now).taxAmount
  {
    SeedCostsWhole(now, v);
    WholeCostsAddUp(DeliveredSeedShipments(now, v), now);
  }

  /** Invoices derived from shipments with whole actual costs: tax of whole cents, and
      a total equal to subtotal plus tax. */
  lemma WholeCostsAddUp(d: seq<Shipment>, now: Instant)
    requires forall k :: 0 <= k < |d| ==> d[k].actualDeliveryDate.Some?
    requires forall k :: 0 <= k < |d| ==> d[k].actualCost == d[k].actualCost.Floor as real
    ensures forall k :: 0 <= k < |d| ==>
              IsCents(d[k].actualCost) && IsCents(d[k].actualCost * 0.18)
              && SeedInvoice(d[k], k + 1, now).totalAmount
                 == SeedInvoice(d[k], k + 1, now).subTotal + SeedInvoice(d[k], k + 1, now).taxAmount
  {
    forall k | 0 <= k < |d|
      ensures IsCents(d[k].actualCost) && IsCents(d[k].actualCost * 0.18)
      ensures SeedInvoice(d[k], k + 1, now).totalAmount
              == SeedInvoice(d[k], k + 1, now).subTotal + SeedInvoice(d[k], k + 1, now).taxAmount
    {
      WholeAmountTaxExact(d[k].actualCost);
      SeedInvoiceTerms(d[k], k + 1, now);
    }
  }

  /** The seeded actual costs are whole currency units. */
  lemma SeedCostsWhole(now: Instant, v: nat)
    requires CanSeed(now)
    ensures var d := DeliveredSeedShipments(now, v);
            forall k :: 0 <= k < |d| ==> d[k].actualCost == d[k].actualCost.Floor as real
  {
    var d := DeliveredSeedShipments(now, v);
    assert [d[0].actualCost, d[1].actualCost, d[2].actualCost, d[3].actualCost, d[4].actualCost,
            d[5].actualCost] == [2850.00, 42000.00, 8100.00, 3350.00, 28500.00, 2250.00];
  }

  /** A whole amount has a tax of whole cents, and then total and subtotal plus tax
      agree. */
  lemma WholeAmountTaxExact(c: Money)
    requires c == c.Floor as real
    ensures IsCents(c) && IsCents(c * 0.18)
    ensures Round2(c * 1.18) == c + Round2(c * 0.18)
  {
    WholeTaxCents(c.Floor);
    TotalAgreesWhenTaxExact(c);
  }

  lemma WholeTaxCents(n: int)
    ensures IsCents(n as real) && IsCents(n as real * 0.18)
  {
    assert n as real * 100.0 == (n * 100) as real;
    assert n as real * 0.18 * 100.0 == (n * 18) as real;
  }

  /** What a successful load reports. */
  datatype SeedReport = SeedReport(message: string, customers: nat, vendors: nat, shipments: nat, invoices: nat)

  /** The first save: the customers, into an empty customer table. */
  method SaveSeedCustomers(db: Store, now: Instant)
    requires db.Valid() && db.customers == [] && CanSeed(now)
    modifies db
    ensures db.Valid()
    ensures db.customers == SeedCustomers(now)
    ensures unchanged(db`users, db`vendors, db`shipments, db`history, db`invoices, db`pricingRules)
  {
    db.NoCustomersNoDocuments();
    SeedTablesKeyed(now, db.vendors);
    db.customers := SeedCustomers(now);
  }

  /** The second save: the vendors, after any vendors already stored. */
  method SaveSeedVendors(db: Store, now: Instant)
    requires db.Valid() && CanSeed(now)
    modifies db
    ensures db.Valid()
    ensures db.vendors == old(db.vendors) + SeedVendors(now, |old(db.vendors)|)
    ensures unchanged(db`users, db`customers, db`shipments, db`history, db`invoices, db`pricingRules)
  {
    SeedTablesKeyed(now, db.vendors);
    db.vendors := db.vendors + SeedVendors(now, |db.vendors|);
  }

  /** The third save: the shipments, into an empty shipment table, referring to the
      seeded customers and to the five vendors after the first `before`. */
  method SaveSeedShipments(db: Store, now: Instant, before: nat)
    requires db.Valid() && CanSeed(now)
    requires db.customers == SeedCustomers(now) && |db.vendors| == before + 5 && db.shipments == []
    modifies db
    ensures db.Valid()
    ensures db.shipments == SeedShipments(now, before)
    ensures unchanged(db`users, db`customers, db`vendors, db`history, db`invoices, db`pricingRules)
  {
    SeedTablesKeyed(now, db.vendors[..before]);
    SeedShipmentsDistinct(now, before);
    db.shipments := SeedShipments(now, before);
  }

  /** The fourth save: the invoices derived from the delivered shipments, into an empty
      invoice table. */
  method SaveSeedInvoices(db: Store, now: Instant, before: nat)
    requires db.Valid() && CanSeed(now)
    requires |db.customers| == 5 && db.shipments == SeedShipments(now, before) && db.invoices == []
    modifies db
    ensures db.Valid()
    ensures DerivedFrom(db.invoices, DeliveredSeedShipments(now, before), now)
    ensures unchanged(db`users, db`customers, db`vendors, db`shipments, db`history, db`pricingRules)
  {
    SeedDeliveredFirst(now, before);
    var delivered := Filter(db.shipments, IsDelivered);
    var invoices := DeriveSeedInvoices(delivered, now);
    SeedInvoicesKeyed(invoices, now, before);
    DerivedNumbersDistinct(invoices, delivered, now);
    db.invoices := invoices;
  }

  /** POST api/seed/populate: 400 and no change when any customer exists; 500 and no
      change when the dates would fall before 0001-01-01; otherwise the customers,
      vendors, shipments and derived invoices are inserted and counted. */
  method PopulateTestData(db: Store, now: Instant) returns (r: Reply<SeedReport>)
    requires db.Valid()
    modifies db
    ensures db.Valid()
    ensures r.BadRequest? <==> |old(db.customers)| > 0
    ensures r.BadRequest? ==> r.message == AlreadySeededMessage
    ensures r.ServerError? <==> |old(db.customers)| == 0 && !CanSeed(now)
    ensures r.Ok? || r.BadRequest? || r.ServerError?
    ensures !r.Ok? ==> unchanged(db)
    ensures r.Ok? ==> CanSeed(now)
    ensures r.Ok? ==> db.customers == SeedCustomers(now)
    ensures r.Ok? ==> db.vendors == old(db.vendors) + SeedVendors(now, |old(db.vendors)|)
    ensures r.Ok? ==> db.shipments == SeedShipments(now, |old(db.vendors)|)
    ensures r.Ok? ==> DerivedFrom(db.invoices, DeliveredSeedShipments(now, |old(db.vendors)|), now)
    ensures r.Ok? ==> r.value == SeedReport(SeededMessage, |db.customers|, |db.vendors| - |old(db.vendors)|,
                                            |db.shipments|, |db.invoices|)
    ensures r.Ok? ==> r.value == SeedReport(SeededMessage, 5, 5, 10, 6)
    ensures unchanged(db`users, db`history, db`pricingRules)
  {
    if |db.customers| > 0 {
      return BadRequest(AlreadySeededMessage);
    }
    if !CanSeed(now) {
      return ServerError(DateRangeMessage);
    }
    db.NoCustomersNoDocuments();
    var before := |db.vendors|;
    SaveSeedCustomers(db, now);
    SaveSeedVendors(db, now);
    SaveSeedShipments(db, now, before);
    SaveSeedInvoices(db, now, before);
    return Ok(SeedReport(SeededMessage, 5, 5, 10, |db.invoices|));
  }
}
