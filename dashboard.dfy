/** The dashboard read model (DashboardController): the summary tiles, the revenue
    trend, the shipments per transport mode, the top customers and the delayed
    shipments. Every action only reads the tables; the clock is the parameter `now`. */
module Dashboard {
  import opened Wrappers
  import opened Calendar
  import opened Text
  import opened Queries
  import opened Models
  import opened FreightContext

  function TotalOf(i: Invoice): Money { i.totalAmount }

  /** A shipment that is still open: booked or in transit. */
  predicate IsActive(s: Shipment) {
    s.status == Booked || s.status == InTransit
  }

  /** A shipment that is neither delivered nor cancelled and whose expected delivery
      is already past. */
  predicate IsDelayed(now: Instant, s: Shipment) {
    s.status != Delivered && s.status != Cancelled && s.expectedDeliveryDate < now
  }

  /** An invoice still to be paid: pending or overdue. */
  predicate IsUnpaid(i: Invoice) {
    i.paymentStatus == Pending || i.paymentStatus == Overdue
  }

  function DelayedCount(shipments: seq<Shipment>, now: Instant): nat {
    CountWhere(shipments, s => IsDelayed(now, s))
  }

  function UnpaidInvoices(invoices: seq<Invoice>): seq<Invoice> {
    Filter(invoices, IsUnpaid)
  }

  function InvoicedSince(invoices: seq<Invoice>, start: Instant): seq<Invoice> {
    Filter(invoices, (i: Invoice) => i.invoiceDate >= start)
  }

  function BookedSince(shipments: seq<Shipment>, start: Instant): seq<Shipment> {
    Filter(shipments, (s: Shipment) => s.bookingDate >= start)
  }

  datatype DashboardSummary = DashboardSummary(
    totalShipmentsThisMonth: nat, activeShipments: nat, delayedShipments: nat,
    totalRevenueThisMonth: Money, pendingInvoices: nat, pendingInvoiceAmount: Money)

  /** GET api/dashboard/summary. "This month" starts at the first of the month of `now`;
      an empty sum is 0. */
  function GetSummary(shipments: seq<Shipment>, invoices: seq<Invoice>, now: Instant)
    : (r: DashboardSummary)
    ensures r.totalShipmentsThisMonth == |BookedSince(shipments, StartOfMonth(now))|
    ensures r.totalShipmentsThisMonth == 0 <==>
              forall i :: 0 <= i < |shipments| ==> shipments[i].bookingDate < StartOfMonth(now)
    ensures r.activeShipments == |Filter(shipments, IsActive)|
    ensures r.activeShipments == 0 <==> forall i :: 0 <= i < |shipments| ==> !IsActive(shipments[i])
    ensures r.delayedShipments == 0 <==> forall i :: 0 <= i < |shipments| ==> !IsDelayed(now, shipments[i])
    ensures r.pendingInvoices == |UnpaidInvoices(invoices)|
    ensures r.pendingInvoiceAmount == Sum(UnpaidInvoices(invoices), TotalOf)
    ensures r.totalRevenueThisMonth == Sum(InvoicedSince(invoices, StartOfMonth(now)), TotalOf)
    ensures r.pendingInvoices == 0 ==> r.pendingInvoiceAmount == 0.0
  {
    var firstDayOfMonth := StartOfMonth(now);
    FilterCount(invoices, IsUnpaid);
    FilterCount(shipments, IsActive);
    FilterCount(shipments, (s: Shipment) => s.bookingDate >= firstDayOfMonth);
    DashboardSummary(
      CountWhere(shipments, (s: Shipment) => s.bookingDate >= firstDayOfMonth),
      CountWhere(shipments, IsActive),
      DelayedCount(shipments, now),
      Sum(InvoicedSince(invoices, firstDayOfMonth), TotalOf),
      CountWhere(invoices, IsUnpaid),
      Sum(UnpaidInvoices(invoices), TotalOf))
  }

  /** A shipment booked at `now` or later in the day counts towards this month: the
      month's first instant is never after `now`. */
  lemma BookedNowCountsThisMonth(shipments: seq<Shipment>, invoices: seq<Invoice>, now: Instant, k: nat)
    requires k < |shipments| && shipments[k].bookingDate >= now
    ensures GetSummary(shipments, invoices, now).totalShipmentsThisMonth > 0
  {
    StartOfMonthBefore(now);
  }

  /** With non-negative invoice totals the outstanding amount is at least 0 and at most
      the total of all invoices, and so is this month's revenue. */
  lemma SummaryAmountsBounded(shipments: seq<Shipment>, invoices: seq<Invoice>, now: Instant)
    requires forall i :: 0 <= i < |invoices| ==> invoices[i].totalAmount >= 0.0
    ensures 0.0 <= GetSummary(shipments, invoices, now).pendingInvoiceAmount <= Sum(invoices, TotalOf)
    ensures 0.0 <= GetSummary(shipments, invoices, now).totalRevenueThisMonth <= Sum(invoices, TotalOf)
  {
    SumFilterBounds(invoices, IsUnpaid, TotalOf);
    SumFilterBounds(invoices, (i: Invoice) => i.invoiceDate >= StartOfMonth(now), TotalOf);
  }

  // ---- Delayed shipments ----

  datatype DelayedShipment = DelayedShipment(
    shipmentId: nat, shipmentNumber: string, customerName: string, vendorName: string,
    originCity: string, destinationCity: string, expectedDeliveryDate: Instant,
    status: string, daysDelayed: nat)

  /** The name of the customer with id `id`; the foreign key guarantees it exists. */
  function CustomerName(customers: seq<Customer>, id: nat): string {
    if IsId(id, |customers|) then customers[id - 1].name else ""
  }

  function VendorName(vendors: seq<Vendor>, id: nat): string {
    if IsId(id, |vendors|) then vendors[id - 1].name else ""
  }

  /** The inner join drops no shipment: with the foreign keys intact, every shipment's
      customer and vendor are rows of their tables, and the names reported are those
      rows' names. */
  lemma JoinFindsParties(db: Store, k: nat)
    requires db.Valid() && k < |db.shipments|
    ensures var s := db.shipments[k];
            IsId(s.customerId, |db.customers|) && db.customers[s.customerId - 1].id == s.customerId
            && CustomerName(db.customers, s.customerId) == db.customers[s.customerId - 1].name
            && IsId(s.vendorId, |db.vendors|) && db.vendors[s.vendorId - 1].id == s.vendorId
            && VendorName(db.vendors, s.vendorId) == db.vendors[s.vendorId - 1].name
  {
    var s := db.shipments[k];
    assert CustomerIdOf(db.customers[s.customerId - 1]) == s.customerId;
    assert VendorIdOf(db.vendors[s.vendorId - 1]) == s.vendorId;
  }

  /** The row reported for a delayed shipment, with the whole days it is late. */
  function DelayedRow(s: Shipment, customers: seq<Customer>, vendors: seq<Vendor>, now: Instant)
    : (r: DelayedShipment)
    requires IsDelayed(now, s)
    ensures r.shipmentId == s.id && r.shipmentNumber == s.number
    ensures r.customerName == CustomerName(customers, s.customerId)
    ensures r.vendorName == VendorName(vendors, s.vendorId)
    ensures r.originCity == s.originCity && r.destinationCity == s.destinationCity
    ensures r.expectedDeliveryDate == s.expectedDeliveryDate && r.status == s.status
    ensures r.daysDelayed * SecondsPerDay <= now - s.expectedDeliveryDate < (r.daysDelayed + 1) * SecondsPerDay
  {
    DelayedShipment(s.id, s.number, CustomerName(customers, s.customerId),
      VendorName(vendors, s.vendorId), s.originCity, s.destinationCity,
      s.expectedDeliveryDate, s.status, WholeDays(s.expectedDeliveryDate, now))
  }

  function DelayedRows(ss: seq<Shipment>, customers: seq<Customer>, vendors: seq<Vendor>, now: Instant)
    : (r: seq<DelayedShipment>)
    requires forall i :: 0 <= i < |ss| ==> IsDelayed(now, ss[i])
    ensures |r| == |ss|
    ensures forall k :: 0 <= k < |r| ==> r[k] == DelayedRow(ss[k], customers, vendors, now)
  {
    if ss == [] then [] else [DelayedRow(ss[0], customers, vendors, now)] + DelayedRows(ss[1..], customers, vendors, now)
  }

  function ExpectedKey(s: Shipment): real { s.expectedDeliveryDate as real }

  /** The delayed shipments, the earliest expected delivery first. */
  function DelayedInOrder(shipments: seq<Shipment>, now: Instant): (ss: seq<Shipment>)
    ensures |ss| == DelayedCount(shipments, now)
    ensures forall s :: s in ss <==> s in shipments && IsDelayed(now, s)
    ensures forall a, b :: 0 <= a < b < |ss| ==> ss[a].expectedDeliveryDate <= ss[b].expectedDeliveryDate
  {
    var ss := SelectAscending(shipments, s => IsDelayed(now, s), ExpectedKey);
    assert forall a, b :: 0 <= a < b < |ss| ==> ExpectedKey(ss[a]) <= ExpectedKey(ss[b]);
    ss
  }

  /** GET api/dashboard/delayed-shipments: one row per delayed shipment, the longest
      overdue first. */
  function GetDelayedShipments(shipments: seq<Shipment>, customers: seq<Customer>, vendors: seq<Vendor>, now: Instant)
    : (r: seq<DelayedShipment>)
    ensures |r| == DelayedCount(shipments, now)
    ensures forall k :: 0 <= k < |r| ==>
              r[k].status != Delivered && r[k].status != Cancelled && r[k].expectedDeliveryDate < now
    ensures forall a, b :: 0 <= a < b < |r| ==> r[a].expectedDeliveryDate <= r[b].expectedDeliveryDate
  {
    var ss := DelayedInOrder(shipments, now);
    assert forall k :: 0 <= k < |ss| ==> ss[k] in ss;
    DelayedRows(ss, customers, vendors, now)
  }

  /** Every delayed shipment is listed, and every row is the row of a delayed shipment. */
  lemma DelayedListComplete(shipments: seq<Shipment>, customers: seq<Customer>, vendors: seq<Vendor>, now: Instant)
    ensures var r := GetDelayedShipments(shipments, customers, vendors, now);
            forall s :: s in shipments && IsDelayed(now, s) ==> DelayedRow(s, customers, vendors, now) in r
    ensures var r := GetDelayedShipments(shipments, customers, vendors, now);
            forall k :: 0 <= k < |r| ==>
              exists s :: s in shipments && IsDelayed(now, s) && r[k] == DelayedRow(s, customers, vendors, now)
  {
    var ss := DelayedInOrder(shipments, now);
    var r := GetDelayedShipments(shipments, customers, vendors, now);
    assert forall k :: 0 <= k < |ss| ==> ss[k] in ss;
    forall s | s in shipments && IsDelayed(now, s)
      ensures DelayedRow(s, customers, vendors, now) in r
    {
      var k :| 0 <= k < |ss| && ss[k] == s;
      assert r[k] == DelayedRow(s, customers, vendors, now);
    }
  }

  /** The delayed count on the summary is the length of the delayed-shipments list. */
  lemma SummaryCountsDelayedList(shipments: seq<Shipment>, invoices: seq<Invoice>,
                                 customers: seq<Customer>, vendors: seq<Vendor>, now: Instant)
    ensures GetSummary(shipments, invoices, now).delayedShipments
         == |GetDelayedShipments(shipments, customers, vendors, now)|
  {
  }

  // ---- Revenue trend ----

  datatype RevenueTrend = RevenueTrend(month: string, revenue: Money, shipmentCount: nat)

  /** The calendar month of an invoice's date, as year * 100 + month. */
  function MonthOf(i: Invoice): nat {
    var c := DateOf(i.invoiceDate);
    c.year * 100 + c.month
  }

  /** A month key of a four-digit year, as every date from year 1000 to 9999 gives. */
  predicate FourDigitMonth(key: nat) {
    1000 <= key / 100 <= 9999 && 1 <= key % 100 <= 12
  }

  /** The label `{Year}-{Month:D2}` of a month key. For a four-digit year it is seven
      characters, `YYYY-MM`, whose two parts read back as the year and the month. */
  function MonthLabel(key: nat): (s: string)
    ensures FourDigitMonth(key) ==>
              |s| == 7 && s[4] == '-' && AllDigits(s[..4]) && AllDigits(s[5..])
              && ValueOf(s[..4]) == key / 100 && ValueOf(s[5..]) == key % 100
  {
    LabelParts(key);
    Digits(key / 100) + "-" + ZeroPad(key % 100, 2)
  }

  lemma LabelParts(key: nat)
    ensures var s := Digits(key / 100) + "-" + ZeroPad(key % 100, 2);
            FourDigitMonth(key) ==>
              |s| == 7 && s[4] == '-' && AllDigits(s[..4]) && AllDigits(s[5..])
              && ValueOf(s[..4]) == key / 100 && ValueOf(s[5..]) == key % 100
  {
    if FourDigitMonth(key) {
      var year, month := Digits(key / 100), ZeroPad(key % 100, 2);
      DigitsOfFourDigits(key / 100);
      DigitsBelow(key % 100, 100, 2);
      DigitsRoundTrip(key / 100);
      ZeroPadRoundTrip(key % 100, 2);
      var s := year + "-" + month;
      assert s[..4] == year && s[5..] == month;
    }
  }

  lemma DigitsOfFourDigits(y: nat)
    requires 1000 <= y <= 9999
    ensures |Digits(y)| == 4
  {
    var a := y / 10;
    var b := a / 10;
    var c := b / 10;
    assert 100 <= a <= 999 && 10 <= b <= 99 && 1 <= c <= 9;
    assert |Digits(y)| == |Digits(a)| + 1;
    assert |Digits(a)| == |Digits(b)| + 1;
    assert |Digits(b)| == |Digits(c)| + 1;
  }

  /** The trend's labels sort as their months do: for four-digit years, ordering the
      `YYYY-MM` texts character by character is ordering by year, then month. */
  lemma MonthLabelOrder(a: nat, b: nat)
    requires FourDigitMonth(a) && FourDigitMonth(b)
    ensures OrdinalLess(MonthLabel(a), MonthLabel(b)) <==> a < b
  {
    var ya, yb := Digits(a / 100), Digits(b / 100);
    var ma, mb := ZeroPad(a % 100, 2), ZeroPad(b % 100, 2);
    LabelPieces(a);
    LabelPieces(b);
    OrdinalLessConcat(ya, yb, "-" + ma, "-" + mb);
    OrdinalLessConcat("-", "-", ma, mb);
    DigitsOrder(ya, yb);
    DigitsOrder(ma, mb);
    KeyOrder(a, b);
  }

  /** A label is its year digits, a dash and its two month digits. */
  lemma LabelPieces(key: nat)
    requires FourDigitMonth(key)
    ensures var y, m := Digits(key / 100), ZeroPad(key % 100, 2);
            MonthLabel(key) == y + ("-" + m) && |y| == 4 && |m| == 2 && AllDigits(y) && AllDigits(m)
            && ValueOf(y) == key / 100 && ValueOf(m) == key % 100
  {
    DigitsOfFourDigits(key / 100);
    DigitsBelow(key % 100, 100, 2);
    DigitsRoundTrip(key / 100);
    ZeroPadRoundTrip(key % 100, 2);
  }

  /** Keys order by year, then month. */
  lemma KeyOrder(a: nat, b: nat)
    ensures a < b <==> a / 100 < b / 100 || (a / 100 == b / 100 && a % 100 < b % 100)
  {
  }

  function NatKey(k: nat): real { k as real }

  function TrendRevenue(t: RevenueTrend): real { t.revenue }

  function TrendCount(t: RevenueTrend): real { t.shipmentCount as real }

  /** One row per month of `months`: that month's label, total and invoice count. */
  function TrendRows(w: seq<Invoice>, months: seq<nat>): (r: seq<RevenueTrend>)
    ensures |r| == |months|
    ensures forall j :: 0 <= j < |r| ==>
              r[j] == RevenueTrend(MonthLabel(months[j]), SumForKey(w, MonthOf, months[j], TotalOf),
                                   CountForKey(w, MonthOf, months[j]))
  {
    if months == [] then []
    else
      [RevenueTrend(MonthLabel(months[0]), SumForKey(w, MonthOf, months[0], TotalOf),
                    CountForKey(w, MonthOf, months[0]))]
      + TrendRows(w, months[1..])
  }

  lemma {:induction false} TrendRowsTotals(w: seq<Invoice>, months: seq<nat>)
    ensures Sum(TrendRows(w, months), TrendRevenue) == GroupSums(w, MonthOf, months, TotalOf)
    ensures Sum(TrendRows(w, months), TrendCount) == GroupSums(w, MonthOf, months, One)
  {
    if months != [] {
      TrendRowsTotals(w, months[1..]);
      CountForKeyIsSum(w, MonthOf, months[0]);
      assert TrendRows(w, months)[1..] == TrendRows(w, months[1..]);
    }
  }

  /** The months that have invoices in `w`, each once, in ascending order. */
  function TrendMonths(w: seq<Invoice>): (ks: seq<nat>)
    ensures Unique(ks) && SortedBy(ks, NatKey)
    ensures forall k :: k in ks <==> exists i :: 0 <= i < |w| && MonthOf(w[i]) == k
  {
    var ks := SortBy(KeysOf(w, MonthOf), NatKey);
    PermutationMembers(ks, KeysOf(w, MonthOf));
    ks
  }

  /** GET api/dashboard/revenue-trend: the invoices dated since the same instant six
      months ago, grouped by calendar month in ascending month order. 500 when six
      months before `now` falls before year 1 (`AddMonths` throws). */
  function GetRevenueTrend(invoices: seq<Invoice>, now: Instant): (r: Reply<seq<RevenueTrend>>)
    ensures r.Ok? || r.ServerError?
    ensures r.ServerError? <==> MonthsBefore(now, 6).None?
    ensures r.Ok? ==> r.value == TrendRows(InvoicedSince(invoices, MonthsBefore(now, 6).value),
                                           TrendMonths(InvoicedSince(invoices, MonthsBefore(now, 6).value)))
  {
    match MonthsBefore(now, 6)
    case None => ServerError("The added or subtracted value results in an un-representable DateTime.")
    case Some(sixMonthsAgo) =>
      var w := InvoicedSince(invoices, sixMonthsAgo);
      Ok(TrendRows(w, TrendMonths(w)))
  }

  /** The trend loses and double counts nothing: its revenues add up to the total of
      the invoices in the window and its counts to their number. */
  lemma TrendAddsUp(invoices: seq<Invoice>, now: Instant)
    requires MonthsBefore(now, 6).Some?
    ensures var w := InvoicedSince(invoices, MonthsBefore(now, 6).value);
            Sum(GetRevenueTrend(invoices, now).value, TrendRevenue) == Sum(w, TotalOf)
            && Sum(GetRevenueTrend(invoices, now).value, TrendCount) == |w| as real
  {
    var w := InvoicedSince(invoices, MonthsBefore(now, 6).value);
    var ks := TrendMonths(w);
    TrendRowsTotals(w, ks);
    GroupSumsTotal(w, MonthOf, ks, TotalOf);
    GroupSumsTotal(w, MonthOf, ks, One);
    SumOnes(w);
  }

  // ---- Shipments by transport mode ----

  datatype ModeShare = ModeShare(transportMode: string, count: nat, percentage: Money)

  function ModeOf(s: Shipment): string { s.transportMode }

  /** `count / total * 100`, or 0 when there are no shipments at all. */
  function Percentage(count: nat, total: nat): Money {
    if total > 0 then count as real / total as real * 100.0 else 0.0
  }

  function ShareCount(m: ModeShare): real { m.count as real }

  function SharePercentage(m: ModeShare): real { m.percentage }

  function ModeRows(ss: seq<Shipment>, modes: seq<string>, total: nat): (r: seq<ModeShare>)
    ensures |r| == |modes|
    ensures forall j :: 0 <= j < |r| ==> r[j].transportMode == modes[j]
    ensures forall j :: 0 <= j < |r| ==> r[j].count == CountForKey(ss, ModeOf, r[j].transportMode)
    ensures forall j :: 0 <= j < |r| ==> r[j].percentage == Percentage(r[j].count, total)
  {
    if modes == [] then []
    else
      [ModeShare(modes[0], CountForKey(ss, ModeOf, modes[0]), Percentage(CountForKey(ss, ModeOf, modes[0]), total))]
      + ModeRows(ss, modes[1..], total)
  }

  lemma {:induction false} ModeRowsCount(ss: seq<Shipment>, modes: seq<string>, total: nat)
    ensures Sum(ModeRows(ss, modes, total), ShareCount) == GroupSums(ss, ModeOf, modes, One)
  {
    if modes != [] {
      ModeRowsCount(ss, modes[1..], total);
      CountForKeyIsSum(ss, ModeOf, modes[0]);
      assert ModeRows(ss, modes, total)[1..] == ModeRows(ss, modes[1..], total);
    }
  }

  /** GET api/dashboard/shipments-by-mode: one row per transport mode in use, each mode
      once, with its shipment count and its share of all shipments. */
  function GetShipmentsByMode(shipments: seq<Shipment>): (r: seq<ModeShare>)
    ensures forall i :: 0 <= i < |shipments| ==>
              exists j :: 0 <= j < |r| && r[j].transportMode == shipments[i].transportMode
    ensures forall j :: 0 <= j < |r| ==>
              exists i :: 0 <= i < |shipments| && shipments[i].transportMode == r[j].transportMode
    ensures forall a, b :: 0 <= a < b < |r| ==> r[a].transportMode != r[b].transportMode
    ensures forall j :: 0 <= j < |r| ==>
              r[j].count == CountForKey(shipments, ModeOf, r[j].transportMode) > 0
              && r[j].percentage == Percentage(r[j].count, |shipments|)
  {
    var modes := KeysOf(shipments, ModeOf);
    var r := ModeRows(shipments, modes, |shipments|);
    ModeRowsCover(shipments, modes, r);
    ModeRowsDistinct(shipments, modes, r);
    r
  }

  lemma ModeRowsCover(shipments: seq<Shipment>, modes: seq<string>, r: seq<ModeShare>)
    requires modes == KeysOf(shipments, ModeOf) && r == ModeRows(shipments, modes, |shipments|)
    ensures forall i :: 0 <= i < |shipments| ==>
              exists j :: 0 <= j < |r| && r[j].transportMode == shipments[i].transportMode
    ensures forall j :: 0 <= j < |r| ==>
              exists i :: 0 <= i < |shipments| && shipments[i].transportMode == r[j].transportMode
  {
    forall i | 0 <= i < |shipments|
      ensures exists j :: 0 <= j < |r| && r[j].transportMode == shipments[i].transportMode
    {
      assert ModeOf(shipments[i]) in modes;
      var j :| 0 <= j < |modes| && modes[j] == ModeOf(shipments[i]);
      assert r[j].transportMode == shipments[i].transportMode;
    }
    forall j | 0 <= j < |r|
      ensures exists i :: 0 <= i < |shipments| && shipments[i].transportMode == r[j].transportMode
    {
      assert modes[j] in modes;
      var i :| 0 <= i < |shipments| && ModeOf(shipments[i]) == modes[j];
      assert shipments[i].transportMode == r[j].transportMode;
    }
  }

  lemma ModeRowsDistinct(shipments: seq<Shipment>, modes: seq<string>, r: seq<ModeShare>)
    requires modes == KeysOf(shipments, ModeOf) && r == ModeRows(shipments, modes, |shipments|)
    ensures forall a, b :: 0 <= a < b < |r| ==> r[a].transportMode != r[b].transportMode
    ensures forall j :: 0 <= j < |r| ==> r[j].count > 0
  {
    UniqueDistinct(modes);
    forall j | 0 <= j < |r| ensures r[j].count > 0 {
      assert modes[j] in modes;
      var i :| 0 <= i < |shipments| && ModeOf(shipments[i]) == modes[j];
      CountForKeyPositive(shipments, ModeOf, i);
    }
  }

  /** The per-mode counts add up to the number of shipments. */
  lemma ModeCountsAddUp(shipments: seq<Shipment>)
    ensures Sum(GetShipmentsByMode(shipments), ShareCount) == |shipments| as real
  {
    var modes := KeysOf(shipments, ModeOf);
    ModeRowsCount(shipments, modes, |shipments|);
    GroupSumsTotal(shipments, ModeOf, modes, One);
    SumOnes(shipments);
  }

  /** When there is any shipment the percentages add up to 100. */
  lemma ModePercentagesAddUp(shipments: seq<Shipment>)
    requires |shipments| > 0
    ensures Sum(GetShipmentsByMode(shipments), SharePercentage) == 100.0
  {
    var r := GetShipmentsByMode(shipments);
    ModeCountsAddUp(shipments);
    PercentagesAddUp(r, ShareCount, SharePercentage, |shipments| as real);
  }

  // ---- Top customers ----

  datatype TopCustomer = TopCustomer(customerId: nat, customerName: string, totalRevenue: Money, shipmentCount: nat)

  function CustomerOf(i: Invoice): nat { i.customerId }

  function RevenueKey(c: TopCustomer): real { c.totalRevenue }

  /** The group of one customer: the total and the number of their invoices. */
  function CustomerRow(invoices: seq<Invoice>, customers: seq<Customer>, id: nat): TopCustomer {
    TopCustomer(id, CustomerName(customers, id), SumForKey(invoices, CustomerOf, id, TotalOf),
                CountForKey(invoices, CustomerOf, id))
  }

  function CustomerRows(invoices: seq<Invoice>, customers: seq<Customer>, ids: seq<nat>): (r: seq<TopCustomer>)
    ensures |r| == |ids|
    ensures forall j :: 0 <= j < |r| ==> r[j] == CustomerRow(invoices, customers, ids[j])
  {
    if ids == [] then [] else [CustomerRow(invoices, customers, ids[0])] + CustomerRows(invoices, customers, ids[1..])
  }

  /** The customers with invoices, each once, highest revenue first. */
  function RankedIds(invoices: seq<Invoice>): (ids: seq<nat>)
    ensures Unique(ids)
    ensures forall k :: k in ids <==> exists i :: 0 <= i < |invoices| && invoices[i].customerId == k
    ensures forall a, b :: 0 <= a < b < |ids| ==>
              SumForKey(invoices, CustomerOf, ids[a], TotalOf) >= SumForKey(invoices, CustomerOf, ids[b], TotalOf)
  {
    var keys := KeysOf(invoices, CustomerOf);
    var ids := SortByDescending(keys, id => SumForKey(invoices, CustomerOf, id, TotalOf));
    PermutationMembers(ids, keys);
    ids
  }

  /** Every invoicing customer's group, highest revenue first. */
  function RankedCustomers(invoices: seq<Invoice>, customers: seq<Customer>): (r: seq<TopCustomer>)
    ensures forall i :: 0 <= i < |invoices| ==> CustomerRow(invoices, customers, invoices[i].customerId) in r
    ensures forall c :: c in r ==>
              exists i :: 0 <= i < |invoices| && c == CustomerRow(invoices, customers, invoices[i].customerId)
    ensures forall a, b :: 0 <= a < b < |r| ==> r[a].totalRevenue >= r[b].totalRevenue
    ensures forall a, b :: 0 <= a < b < |r| ==> r[a].customerId != r[b].customerId
  {
    var ids := RankedIds(invoices);
    var r := CustomerRows(invoices, customers, ids);
    RankedFacts(invoices, customers, ids, r);
    r
  }

  lemma RankedFacts(invoices: seq<Invoice>, customers: seq<Customer>, ids: seq<nat>, r: seq<TopCustomer>)
    requires ids == RankedIds(invoices) && r == CustomerRows(invoices, customers, ids)
    ensures forall i :: 0 <= i < |invoices| ==> CustomerRow(invoices, customers, invoices[i].customerId) in r
    ensures forall c :: c in r ==>
              exists i :: 0 <= i < |invoices| && c == CustomerRow(invoices, customers, invoices[i].customerId)
    ensures forall a, b :: 0 <= a < b < |r| ==> r[a].customerId != r[b].customerId
  {
    UniqueDistinct(ids);
    RowsCoverInvoices(invoices, customers, ids, r);
    RowsFromInvoices(invoices, customers, ids, r);
  }

  lemma RowsCoverInvoices(invoices: seq<Invoice>, customers: seq<Customer>, ids: seq<nat>, r: seq<TopCustomer>)
    requires r == CustomerRows(invoices, customers, ids)
    requires forall i :: 0 <= i < |invoices| ==> invoices[i].customerId in ids
    ensures forall i :: 0 <= i < |invoices| ==> CustomerRow(invoices, customers, invoices[i].customerId) in r
  {
    forall i | 0 <= i < |invoices|
      ensures CustomerRow(invoices, customers, invoices[i].customerId) in r
    {
      var j :| 0 <= j < |ids| && ids[j] == invoices[i].customerId;
      assert r[j] == CustomerRow(invoices, customers, invoices[i].customerId);
    }
  }

  lemma RowsFromInvoices(invoices: seq<Invoice>, customers: seq<Customer>, ids: seq<nat>, r: seq<TopCustomer>)
    requires r == CustomerRows(invoices, customers, ids)
    requires forall k :: k in ids ==> exists i :: 0 <= i < |invoices| && invoices[i].customerId == k
    ensures forall c :: c in r ==>
              exists i :: 0 <= i < |invoices| && c == CustomerRow(invoices, customers, invoices[i].customerId)
  {
    forall c | c in r
      ensures exists i :: 0 <= i < |invoices| && c == CustomerRow(invoices, customers, invoices[i].customerId)
    {
      var j :| 0 <= j < |r| && r[j] == c;
      assert ids[j] in ids;
      var i :| 0 <= i < |invoices| && invoices[i].customerId == ids[j];
      assert c == CustomerRow(invoices, customers, invoices[i].customerId);
    }
  }

  /** GET api/dashboard/top-customers?limit=n: the first `limit` customer groups by
      revenue; a negative limit lifts the bound (SQLite's LIMIT). */
  function GetTopCustomers(invoices: seq<Invoice>, customers: seq<Customer>, limit: int): (r: seq<TopCustomer>)
    ensures r <= RankedCustomers(invoices, customers)
    ensures limit >= 0 ==> |r| == Min(limit, |RankedCustomers(invoices, customers)|)
    ensures limit < 0 ==> r == RankedCustomers(invoices, customers)
    ensures forall a, b :: 0 <= a < b < |r| ==> r[a].totalRevenue >= r[b].totalRevenue
  {
    var ranked := RankedCustomers(invoices, customers);
    var r := Limit(ranked, limit);
    LimitKeepsRanking(ranked, limit, r);
    r
  }

  /** A prefix of a ranking, as long as the limit allows, is ranked too. */
  lemma LimitKeepsRanking(ranked: seq<TopCustomer>, limit: int, r: seq<TopCustomer>)
    requires r == Limit(ranked, limit)
    requires forall a, b :: 0 <= a < b < |ranked| ==> ranked[a].totalRevenue >= ranked[b].totalRevenue
    ensures r <= ranked
    ensures limit >= 0 ==> |r| == Min(limit, |ranked|)
    ensures limit < 0 ==> r == ranked
    ensures forall a, b :: 0 <= a < b < |r| ==> r[a].totalRevenue >= r[b].totalRevenue
  {
    assert forall k :: 0 <= k < |r| ==> r[k] == ranked[k];
  }

  /** Nobody left out earns more than anybody listed: every invoicing customer is either
      listed or has a revenue at most that of each listed customer. */
  lemma TopCustomersDominate(invoices: seq<Invoice>, customers: seq<Customer>, limit: int, i: nat)
    requires i < |invoices|
    ensures var r := GetTopCustomers(invoices, customers, limit);
            var c := CustomerRow(invoices, customers, invoices[i].customerId);
            c in r || forall k :: 0 <= k < |r| ==> r[k].totalRevenue >= c.totalRevenue
  {
    var ranked := RankedCustomers(invoices, customers);
    var r := GetTopCustomers(invoices, customers, limit);
    var c := CustomerRow(invoices, customers, invoices[i].customerId);
    var j :| 0 <= j < |ranked| && ranked[j] == c;
    if j < |r| {
      assert r[j] == c;
    } else {
      forall k | 0 <= k < |r| ensures r[k].totalRevenue >= c.totalRevenue {
        assert r[k] == ranked[k];
      }
    }
  }

  /** The group totals add up to the total of all invoices, and the group counts to
      their number, when no limit is applied. */
  lemma RankedAddsUp(invoices: seq<Invoice>, customers: seq<Customer>)
    ensures Sum(RankedCustomers(invoices, customers), RevenueKey) == Sum(invoices, TotalOf)
  {
    var ids := RankedIds(invoices);
    CustomerRowsTotal(invoices, customers, ids);
    GroupSumsTotal(invoices, CustomerOf, ids, TotalOf);
  }

  lemma {:induction false} CustomerRowsTotal(invoices: seq<Invoice>, customers: seq<Customer>, ids: seq<nat>)
    ensures Sum(CustomerRows(invoices, customers, ids), RevenueKey) == GroupSums(invoices, CustomerOf, ids, TotalOf)
  {
    if ids != [] {
      CustomerRowsTotal(invoices, customers, ids[1..]);
      assert CustomerRows(invoices, customers, ids)[1..] == CustomerRows(invoices, customers, ids[1..]);
    }
  }
}
