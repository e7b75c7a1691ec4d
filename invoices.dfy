/** Invoicing (InvoicesController): raising an invoice for a shipment, recording a
    payment, and the two invoice listings. */
module Invoices {
  import opened Wrappers
  import opened Calendar
  import opened Text
  import opened Numbering
  import opened Queries
  import opened Models
  import opened FreightContext

  /** The GST rate applied to every invoice. */
  const TaxRate: Money := 0.18

  /** The days between an invoice and its due date. */
  const PaymentTermDays: nat := 30

  /** Whether an invoice was dated on the same calendar day as `now`. */
  predicate DatedOn(now: Instant, i: Invoice) {
    DayOf(i.invoiceDate) == DayOf(now)
  }

  /** The number of invoices already dated today. */
  function InvoicesToday(invoices: seq<Invoice>, now: Instant): nat {
    CountWhere(invoices, i => DatedOn(now, i))
  }

  /** The number the next invoice raised at `now` receives: `INV`, today's date, and one
      more than the count of invoices dated today. */
  function NextInvoiceNumber(invoices: seq<Invoice>, now: Instant): (r: string)
    ensures |r| > 4 && r[..4] == "INV-"
    ensures AllDigits(LastSegment(r))
    ensures ValueOf(LastSegment(r)) == InvoicesToday(invoices, now) + 1
  {
    assert DocNumber("INV", DateOf(now), InvoicesToday(invoices, now) + 1)[..4] == "INV-";
    DocNumberSequence("INV", DateOf(now), InvoicesToday(invoices, now) + 1);
    DocNumber("INV", DateOf(now), InvoicesToday(invoices, now) + 1)
  }

  /** Raising an invoice at `now` and then another later the same day gives the second
      one the next sequence number, so the two numbers differ. */
  lemma SameDayNumbersAdvance(invoices: seq<Invoice>, raised: Invoice, now: Instant, later: Instant)
    requires raised.invoiceDate == now && DayOf(later) == DayOf(now)
    ensures ValueOf(LastSegment(NextInvoiceNumber(invoices + [raised], later)))
            == ValueOf(LastSegment(NextInvoiceNumber(invoices, now))) + 1
    ensures NextInvoiceNumber(invoices + [raised], later) != NextInvoiceNumber(invoices, now)
  {
    CountWhereSnoc(invoices, raised, i => DatedOn(later, i));
    assert InvoicesToday(invoices, later) == InvoicesToday(invoices, now) by {
      CountSameDay(invoices, now, later);
    }
  }

  lemma {:induction false} CountSameDay(invoices: seq<Invoice>, now: Instant, later: Instant)
    requires DayOf(later) == DayOf(now)
    ensures InvoicesToday(invoices, later) == InvoicesToday(invoices, now)
  {
    if invoices != [] {
      CountSameDay(invoices[1..], now, later);
    }
  }

  /** The amount invoiced for a shipment: its actual cost when positive, else its
      estimate. */
  function SubTotalOf(s: Shipment): (r: Money)
    ensures s.actualCost > 0.0 ==> r == s.actualCost
    ensures s.actualCost <= 0.0 ==> r == s.estimatedCost
  {
    if s.actualCost > 0.0 then s.actualCost else s.estimatedCost
  }

  /** The invoice raised for shipment `s` at `now` by user `userId`. */
  function NewInvoice(id: nat, number: string, s: Shipment, userId: nat, now: Instant): (inv: Invoice)
    ensures inv.id == id && inv.number == number
    ensures inv.shipmentId == s.id && inv.customerId == s.customerId
    ensures inv.subTotal == SubTotalOf(s)
    ensures inv.taxAmount == inv.subTotal * TaxRate
    ensures inv.totalAmount == inv.subTotal + inv.taxAmount == inv.subTotal * 1.18
    ensures inv.invoiceDate == now && inv.createdAt == now && inv.createdBy == userId
    ensures inv.dueDate - inv.invoiceDate == PaymentTermDays * SecondsPerDay
    ensures DayOf(inv.dueDate) == DayOf(inv.invoiceDate) + PaymentTermDays
    ensures inv.paymentStatus == Pending && inv.paidAmount == 0.0 && inv.paidDate.None?
  {
    var subTotal := SubTotalOf(s);
    var taxAmount := subTotal * TaxRate;
    Invoice(id, number, s.id, s.customerId, now, Later(now, PaymentTermDays), subTotal,
            taxAmount, subTotal + taxAmount, Pending, 0.0, None, userId, now)
  }

  /** For a non-negative amount the tax is within the total, and the total is never
      less than the subtotal. */
  lemma InvoiceAmountsOrdered(id: nat, number: string, s: Shipment, userId: nat, now: Instant)
    requires SubTotalOf(s) >= 0.0
    ensures var inv := NewInvoice(id, number, s, userId, now);
            0.0 <= inv.taxAmount <= inv.totalAmount && inv.subTotal <= inv.totalAmount
  {
  }

  /** POST api/invoices: raise an invoice for shipment `shipmentId`. 404 when there is no
      such shipment; 500 when today's number is already taken (the unique index on
      InvoiceNumber); otherwise exactly one invoice is appended. Nothing stops a second
      invoice for the same shipment. */
  method CreateInvoice(db: Store, shipmentId: int, claim: Option<nat>, now: Instant)
    returns (r: Reply<Invoice>)
    requires db.Valid()
    modifies db
    ensures db.Valid()
    ensures r.Ok? || r.NotFound? || r.ServerError?
    ensures r.NotFound? <==> !IsId(shipmentId, |old(db.shipments)|)
    ensures r.ServerError? <==>
              IsId(shipmentId, |old(db.shipments)|)
              && Taken(old(db.invoices), InvoiceNumberOf, NextInvoiceNumber(old(db.invoices), now), -1)
    ensures !r.Ok? ==> unchanged(db)
    ensures r.Ok? ==> r.value == NewInvoice(|old(db.invoices)| + 1,
      NextInvoiceNumber(old(db.invoices), now), old(db.shipments)[shipmentId - 1], CallerId(claim), now)
    ensures r.Ok? ==> db.invoices == old(db.invoices) + [r.value]
    ensures unchanged(db`users, db`customers, db`vendors, db`shipments, db`history, db`pricingRules)
  {
    if !IsId(shipmentId, |db.shipments|) {
      return NotFound;
    }
    var shipment := db.shipments[shipmentId - 1];
    var userId := CallerId(claim);
    var number := NextInvoiceNumber(db.invoices, now);
    if Taken(db.invoices, InvoiceNumberOf, number, -1) {
      return ServerError("UNIQUE constraint failed: Invoices.InvoiceNumber");
    }
    var invoice := NewInvoice(|db.invoices| + 1, number, shipment, userId, now);
    assert IsId(invoice.customerId, |db.customers|);
    db.invoices := db.invoices + [invoice];
    return Ok(invoice);
  }

  /** An invoice after a payment update: the status and paid amount are overwritten, the
      paid date is set to `now` when the status is "Paid" and otherwise kept. */
  function ApplyPayment(inv: Invoice, status: string, amount: Money, now: Instant): (r: Invoice)
    ensures r.paymentStatus == status && r.paidAmount == amount
    ensures status == Paid ==> r.paidDate == Some(now)
    ensures status != Paid ==> r.paidDate == inv.paidDate
    ensures r.(paymentStatus := inv.paymentStatus, paidAmount := inv.paidAmount, paidDate := inv.paidDate) == inv
  {
    inv.(paymentStatus := status, paidAmount := amount,
         paidDate := if status == Paid then Some(now) else inv.paidDate)
  }

  /** Marking a paid invoice as anything else keeps the date it was paid: the paid date
      is never cleared. */
  lemma PaidDateSurvivesReopen(inv: Invoice, a: Money, paidAt: Instant, status: string, b: Money, later: Instant)
    requires status != Paid
    ensures ApplyPayment(ApplyPayment(inv, Paid, a, paidAt), status, b, later).paidDate == Some(paidAt)
  {
  }

  /** Repeating a payment update at the same instant changes nothing more. */
  lemma ApplyPaymentIdempotent(inv: Invoice, status: string, amount: Money, now: Instant)
    ensures ApplyPayment(ApplyPayment(inv, status, amount, now), status, amount, now)
         == ApplyPayment(inv, status, amount, now)
  {
  }

  /** PUT api/invoices/{id}/payment: 404 and no change when there is no such invoice;
      otherwise that invoice, and only it, is updated as ApplyPayment says. */
  method UpdatePaymentStatus(db: Store, id: int, status: string, amount: Money, now: Instant)
    returns (r: Reply<()>)
    requires db.Valid()
    modifies db
    ensures db.Valid()
    ensures r == Ok(()) || r == NotFound
    ensures r.NotFound? <==> !IsId(id, |old(db.invoices)|)
    ensures r.NotFound? ==> unchanged(db)
    ensures r.Ok? ==> db.invoices == old(db.invoices)[id - 1 := ApplyPayment(old(db.invoices)[id - 1], status, amount, now)]
    ensures unchanged(db`users, db`customers, db`vendors, db`shipments, db`history, db`pricingRules)
  {
    if !IsId(id, |db.invoices|) {
      return NotFound;
    }
    var updated := ApplyPayment(db.invoices[id - 1], status, amount, now);
    db.invoices := db.invoices[id - 1 := updated];
    assert forall k :: 0 <= k < |db.invoices| ==> db.invoices[k].number == old(db.invoices)[k].number;
    return Ok(());
  }

  /** The filters of GET api/invoices: a status that is not blank must match exactly, a
      customer id when given must match. */
  predicate ListedInvoice(i: Invoice, paymentStatus: Option<string>, customerId: Option<int>) {
    (IsBlank(paymentStatus) || i.paymentStatus == paymentStatus.value)
    && (customerId.None? || i.customerId == customerId.value)
  }

  function CreatedAtKey(i: Invoice): real { i.createdAt as real }

  function InvoiceDateKey(i: Invoice): real { i.invoiceDate as real }

  /** GET api/invoices: the matching invoices, newest first. */
  function GetInvoices(invoices: seq<Invoice>, paymentStatus: Option<string>, customerId: Option<int>)
    : (r: seq<Invoice>)
    ensures forall i :: i in r <==> i in invoices && ListedInvoice(i, paymentStatus, customerId)
    ensures |r| == CountWhere(invoices, i => ListedInvoice(i, paymentStatus, customerId))
    ensures forall a, b :: 0 <= a < b < |r| ==> r[a].createdAt >= r[b].createdAt
  {
    var r := SelectDescending(invoices, i => ListedInvoice(i, paymentStatus, customerId), CreatedAtKey);
    assert forall a, b :: 0 <= a < b < |r| ==> CreatedAtKey(r[a]) >= CreatedAtKey(r[b]);
    r
  }

  /** The list is a reordering of the matching invoices. */
  lemma GetInvoicesPermutes(invoices: seq<Invoice>, paymentStatus: Option<string>, customerId: Option<int>)
    ensures multiset(GetInvoices(invoices, paymentStatus, customerId))
         == multiset(Filter(invoices, i => ListedInvoice(i, paymentStatus, customerId)))
  {
  }

  /** GET api/invoices/customer/{customerId}: that customer's invoices, latest invoice
      date first. */
  function GetCustomerInvoices(invoices: seq<Invoice>, customerId: int): (r: seq<Invoice>)
    ensures forall i :: i in r <==> i in invoices && i.customerId == customerId
    ensures |r| == CountWhere(invoices, (i: Invoice) => i.customerId == customerId)
    ensures forall a, b :: 0 <= a < b < |r| ==> r[a].invoiceDate >= r[b].invoiceDate
  {
    var r := SelectDescending(invoices, (i: Invoice) => i.customerId == customerId, InvoiceDateKey);
    assert forall a, b :: 0 <= a < b < |r| ==> InvoiceDateKey(r[a]) >= InvoiceDateKey(r[b]);
    r
  }

  /** The list is a reordering of that customer's invoices. */
  lemma GetCustomerInvoicesPermutes(invoices: seq<Invoice>, customerId: int)
    ensures multiset(GetCustomerInvoices(invoices, customerId))
         == multiset(Filter(invoices, (i: Invoice) => i.customerId == customerId))
  {
  }
}
