/** Shipment booking, editing and the status ledger (ShipmentsController). */
module Shipments {
  import opened Wrappers
  import opened Calendar
  import opened Text
  import opened Numbering
  import opened Queries
  import opened Models
  import opened FreightContext

  /** Whether a shipment's booking date falls on the calendar day of `now`. */
  predicate BookedOn(now: Instant, s: Shipment) {
    DayOf(s.bookingDate) == DayOf(now)
  }

  /** The number of shipments whose booking date is today. */
  function ShipmentsBookedToday(shipments: seq<Shipment>, now: Instant): nat {
    CountWhere(shipments, s => BookedOn(now, s))
  }

  /** The number a shipment created at `now` receives: `SHP`, today's date, and one more
      than the count of shipments booked today. */
  function NextShipmentNumber(shipments: seq<Shipment>, now: Instant): (r: string)
    ensures |r| > 4 && r[..4] == "SHP-"
    ensures AllDigits(LastSegment(r))
    ensures ValueOf(LastSegment(r)) == ShipmentsBookedToday(shipments, now) + 1
  {
    assert DocNumber("SHP", DateOf(now), ShipmentsBookedToday(shipments, now) + 1)[..4] == "SHP-";
    DocNumberSequence("SHP", DateOf(now), ShipmentsBookedToday(shipments, now) + 1);
    DocNumber("SHP", DateOf(now), ShipmentsBookedToday(shipments, now) + 1)
  }

  lemma {:induction false} CountSameBookingDay(shipments: seq<Shipment>, now: Instant, later: Instant)
    requires DayOf(later) == DayOf(now)
    ensures ShipmentsBookedToday(shipments, later) == ShipmentsBookedToday(shipments, now)
  {
    if shipments != [] {
      CountSameBookingDay(shipments[1..], now, later);
    }
  }

  /** A shipment booked today advances today's sequence: the next shipment created the
      same day gets the next number. */
  lemma SameDayNumbersAdvance(shipments: seq<Shipment>, created: Shipment, now: Instant, later: Instant)
    requires BookedOn(now, created) && DayOf(later) == DayOf(now)
    ensures ValueOf(LastSegment(NextShipmentNumber(shipments + [created], later)))
            == ValueOf(LastSegment(NextShipmentNumber(shipments, now))) + 1
  {
    CountWhereSnoc(shipments, created, s => BookedOn(later, s));
    CountSameBookingDay(shipments, now, later);
  }

  /** The numbering counts booking dates, not creation times: a shipment created today
      whose body carries another booking date does not advance today's sequence, so the
      next shipment created today computes the same number (and the unique index on
      ShipmentNumber then rejects it). */
  lemma OtherBookingDateRepeatsNumber(shipments: seq<Shipment>, created: Shipment, now: Instant)
    requires !BookedOn(now, created)
    ensures NextShipmentNumber(shipments + [created], now) == NextShipmentNumber(shipments, now)
  {
    CountWhereSnoc(shipments, created, s => BookedOn(now, s));
  }

  /** The shipment stored for a creation request: the body as sent, with the assigned
      id, the generated number, the caller as creator, and both time stamps at `now`. */
  function AsCreated(body: Shipment, id: nat, number: string, userId: nat, now: Instant): (s: Shipment)
    ensures s.id == id && s.number == number && s.createdBy == userId
    ensures s.createdAt == now && s.updatedAt == now
    ensures s.(id := body.id, number := body.number, createdBy := body.createdBy,
               createdAt := body.createdAt, updatedAt := body.updatedAt) == body
  {
    body.(id := id, number := number, createdBy := userId, createdAt := now, updatedAt := now)
  }

  /** The ledger entry recorded with a new shipment. */
  function CreationEntry(id: nat, s: Shipment, userId: nat, now: Instant): (e: StatusEntry)
    ensures e.id == id && e.shipmentId == s.id && e.status == s.status
    ensures e.remarks == "Shipment created" && e.updatedBy == userId && e.updatedAt == now
  {
    StatusEntry(id, s.id, s.status, "Shipment created", userId, now)
  }

  /** The initial ledger entry as ShipmentsController.cs:100-108 builds it: the shipment id
      is read from the body before the insert has assigned one. */
  function CreationEntryAsWritten(id: nat, body: Shipment, userId: nat, now: Instant): (e: StatusEntry)
    ensures e.id == id && e.shipmentId == body.id && e.status == body.status
    ensures e.remarks == "Shipment created" && e.updatedBy == userId && e.updatedAt == now
  {
    StatusEntry(id, body.id, body.status, "Shipment created", userId, now)
  }

  /** With body id 0 (the usual case, a body that carries no id) the entry as written
      refers to no shipment at all, so it names neither the new shipment nor any other
      and breaks the ledger's foreign key. The entry CreateShipment records refers to the
      new shipment. A nonzero body id is not covered here: the model gives every created
      row the next id whatever the body says. */
  lemma CreationEntryAsWrittenMisfiles(shipments: seq<Shipment>, body: Shipment, id: nat, number: string,
                                       userId: nat, now: Instant)
    requires body.id == 0
    ensures var created := AsCreated(body, |shipments| + 1, number, userId, now);
            CreationEntryAsWritten(id, body, userId, now).shipmentId != created.id
            && CreationEntry(id, created, userId, now).shipmentId == created.id
            && IsId(CreationEntry(id, created, userId, now).shipmentId, |shipments + [created]|)
    ensures !IsId(CreationEntryAsWritten(id, body, userId, now).shipmentId, |shipments| + 1)
  {
  }

  /** Whether a shipment's customer and vendor exist (the foreign keys). */
  predicate PartiesExist(db: Store, s: Shipment)
    reads db
  {
    IsId(s.customerId, |db.customers|) && IsId(s.vendorId, |db.vendors|)
  }

  /** POST api/shipments: store the body as a new shipment with a generated number and
      record its initial status in the ledger. The insert fails with 500 when the
      customer or vendor does not exist or the number is taken. */
  method CreateShipment(db: Store, body: Shipment, claim: Option<nat>, now: Instant)
    returns (r: Reply<Shipment>)
    requires db.Valid()
    modifies db
    ensures db.Valid()
    ensures r.Ok? || r.ServerError?
    ensures r.ServerError? <==>
              !old(PartiesExist(db, body))
              || Taken(old(db.shipments), ShipmentNumberOf, NextShipmentNumber(old(db.shipments), now), -1)
    ensures r.ServerError? ==> unchanged(db)
    ensures r.Ok? ==> r.value == AsCreated(body, |old(db.shipments)| + 1,
                                   NextShipmentNumber(old(db.shipments), now), CallerId(claim), now)
    ensures r.Ok? ==> db.shipments == old(db.shipments) + [r.value]
    ensures r.Ok? ==> db.history == old(db.history) + [CreationEntry(|old(db.history)| + 1, r.value, CallerId(claim), now)]
    ensures unchanged(db`users, db`customers, db`vendors, db`invoices, db`pricingRules)
  {
    var userId := CallerId(claim);
    var number := NextShipmentNumber(db.shipments, now);
    if !PartiesExist(db, body) {
      return ServerError("FOREIGN KEY constraint failed");
    }
    if Taken(db.shipments, ShipmentNumberOf, number, -1) {
      return ServerError("UNIQUE constraint failed: Shipments.ShipmentNumber");
    }
    var shipment := AsCreated(body, |db.shipments| + 1, number, userId, now);
    var entry := CreationEntry(|db.history| + 1, shipment, userId, now);
    AppendKeepsPositions(db.shipments, shipment, ShipmentIdOf);
    AppendKeepsPositions(db.history, entry, EntryIdOf);
    AppendKeepsDistinct(db.shipments, shipment, ShipmentNumberOf);
    NewShipmentKeepsForeignKeys(db.customers, db.vendors, db.shipments, db.history, db.invoices, shipment, entry);
    db.shipments, db.history := db.shipments + [shipment], db.history + [entry];
    return Ok(shipment);
  }

  /** PUT api/shipments/{id}: replace every column of shipment `id` with the body, stamped
      with `now`. 400 when the route and body ids differ, 404 when there is no such
      shipment, 500 when the body breaks a foreign key or the number index. */
  method UpdateShipment(db: Store, id: int, body: Shipment, now: Instant) returns (r: Reply<()>)
    requires db.Valid()
    modifies db
    ensures db.Valid()
    ensures r.BadRequest? <==> id != body.id
    ensures r.NotFound? <==> id == body.id && !IsId(id, |old(db.shipments)|)
    ensures r.ServerError? <==>
              id == body.id && IsId(id, |old(db.shipments)|)
              && (!old(PartiesExist(db, body)) || Taken(old(db.shipments), ShipmentNumberOf, body.number, id - 1))
    ensures !r.Ok? ==> unchanged(db)
    ensures r.Ok? ==> r == Ok(()) && db.shipments == old(db.shipments)[id - 1 := body.(updatedAt := now)]
    ensures unchanged(db`users, db`customers, db`vendors, db`history, db`invoices, db`pricingRules)
  {
    if id != body.id {
      return BadRequest("");
    }
    if !IsId(id, |db.shipments|) {
      return NotFound;
    }
    if !PartiesExist(db, body) {
      return ServerError("FOREIGN KEY constraint failed");
    }
    if Taken(db.shipments, ShipmentNumberOf, body.number, id - 1) {
      return ServerError("UNIQUE constraint failed: Shipments.ShipmentNumber");
    }
    db.shipments := db.shipments[id - 1 := body.(updatedAt := now)];
    return Ok(());
  }

  /** A shipment after a status update: the status is the one given, whatever it was
      before; the update time is `now`; the delivery date is stamped with `now` only when
      the new status is "Delivered" and no delivery date is set. */
  function ApplyStatus(s: Shipment, status: string, now: Instant): (r: Shipment)
    ensures r.status == status && r.updatedAt == now
    ensures status == Delivered && s.actualDeliveryDate.None? ==> r.actualDeliveryDate == Some(now)
    ensures !(status == Delivered && s.actualDeliveryDate.None?) ==> r.actualDeliveryDate == s.actualDeliveryDate
    ensures r.(status := s.status, updatedAt := s.updatedAt, actualDeliveryDate := s.actualDeliveryDate) == s
  {
    s.(status := status, updatedAt := now,
       actualDeliveryDate := if status == Delivered && s.actualDeliveryDate.None? then Some(now)
                             else s.actualDeliveryDate)
  }

  /** Once set, the delivery date never changes, whatever statuses follow. */
  lemma {:induction false} DeliveryDateStable(s: Shipment, statuses: seq<string>, times: seq<Instant>)
    requires s.actualDeliveryDate.Some? && |statuses| == |times|
    ensures ApplyAll(s, statuses, times).actualDeliveryDate == s.actualDeliveryDate
    decreases |statuses|
  {
    if statuses != [] {
      DeliveryDateStable(ApplyStatus(s, statuses[0], times[0]), statuses[1..], times[1..]);
    }
  }

  /** A run of status updates. */
  function ApplyAll(s: Shipment, statuses: seq<string>, times: seq<Instant>): Shipment
    requires |statuses| == |times|
    decreases |statuses|
  {
    if statuses == [] then s else ApplyAll(ApplyStatus(s, statuses[0], times[0]), statuses[1..], times[1..])
  }

  /** A repeated "Delivered" keeps the first delivery date. */
  lemma RedeliveryKeepsFirstDate(s: Shipment, first: Instant, second: Instant)
    requires s.actualDeliveryDate.None?
    ensures ApplyStatus(ApplyStatus(s, Delivered, first), Delivered, second).actualDeliveryDate == Some(first)
  {
  }

  /** The ledger entry for a status update. */
  function StatusChangeEntry(id: nat, shipmentId: nat, status: string, remarks: Option<string>,
                             userId: nat, now: Instant): (e: StatusEntry)
    ensures e.id == id && e.shipmentId == shipmentId && e.status == status
    ensures remarks.Some? ==> e.remarks == remarks.value
    ensures remarks.None? ==> e.remarks == ""
    ensures e.updatedBy == userId && e.updatedAt == now
  {
    StatusEntry(id, shipmentId, status, remarks.GetOr(""), userId, now)
  }

  /** PUT api/shipments/{id}/status: 404 and no change when there is no such shipment;
      otherwise the shipment is updated as ApplyStatus says and exactly one ledger entry
      is appended. No transition is refused. */
  method UpdateShipmentStatus(db: Store, id: int, status: string, remarks: Option<string>,
                              claim: Option<nat>, now: Instant)
    returns (r: Reply<()>)
    requires db.Valid()
    modifies db
    ensures db.Valid()
    ensures r == Ok(()) || r == NotFound
    ensures r.NotFound? <==> !IsId(id, |old(db.shipments)|)
    ensures r.NotFound? ==> unchanged(db)
    ensures r.Ok? ==> db.shipments == old(db.shipments)[id - 1 := ApplyStatus(old(db.shipments)[id - 1], status, now)]
    ensures r.Ok? ==> db.history == old(db.history)
                        + [StatusChangeEntry(|old(db.history)| + 1, id, status, remarks, CallerId(claim), now)]
    ensures unchanged(db`users, db`customers, db`vendors, db`invoices, db`pricingRules)
  {
    if !IsId(id, |db.shipments|) {
      return NotFound;
    }
    var userId := CallerId(claim);
    var updated := ApplyStatus(db.shipments[id - 1], status, now);
    db.shipments := db.shipments[id - 1 := updated];
    assert forall k :: 0 <= k < |db.shipments| ==> db.shipments[k].number == old(db.shipments)[k].number;
    db.history := db.history + [StatusChangeEntry(|db.history| + 1, id, status, remarks, userId, now)];
    return Ok(());
  }

  /** The status changes the web client offers: none once a shipment is delivered or
      cancelled; otherwise Booked to In Transit, In Transit to Delivered, and a
      cancellation. */
  predicate ClientOffersTransition(from: string, to: string) {
    from != Delivered && from != Cancelled
    && ((from == Booked && to == InTransit) || (from == InTransit && to == Delivered) || to == Cancelled)
  }

  /** The server accepts what the client never offers: a delivered shipment can be moved
      back to "Booked", and any string is stored as a status. */
  lemma ServerAcceptsUnofferedTransitions(s: Shipment, now: Instant)
    requires s.status == Delivered
    ensures !ClientOffersTransition(s.status, Booked)
    ensures ApplyStatus(s, Booked, now).status == Booked
    ensures ApplyStatus(s, Booked, now).actualDeliveryDate == s.actualDeliveryDate
  {
  }

  /** The filters of GET api/shipments: a status that is not blank must match exactly;
      a customer id, a first and a last booking date, each when given, bound the rest. */
  predicate ListedShipment(s: Shipment, status: Option<string>, customerId: Option<int>,
                           fromDate: Option<Instant>, toDate: Option<Instant>) {
    (IsBlank(status) || s.status == status.value)
    && (customerId.None? || s.customerId == customerId.value)
    && (fromDate.None? || s.bookingDate >= fromDate.value)
    && (toDate.None? || s.bookingDate <= toDate.value)
  }

  function CreatedAtKey(s: Shipment): real { s.createdAt as real }

  function UpdatedAtKey(e: StatusEntry): real { e.updatedAt as real }

  /** GET api/shipments: the matching shipments, newest first. */
  function GetShipments(shipments: seq<Shipment>, status: Option<string>, customerId: Option<int>,
                        fromDate: Option<Instant>, toDate: Option<Instant>): (r: seq<Shipment>)
    ensures forall s :: s in r <==> s in shipments && ListedShipment(s, status, customerId, fromDate, toDate)
    ensures |r| == CountWhere(shipments, s => ListedShipment(s, status, customerId, fromDate, toDate))
    ensures forall a, b :: 0 <= a < b < |r| ==> r[a].createdAt >= r[b].createdAt
  {
    var r := SelectDescending(shipments, s => ListedShipment(s, status, customerId, fromDate, toDate), CreatedAtKey);
    NewestFirst(r);
    r
  }

  /** The list is a reordering of the matching shipments. */
  lemma GetShipmentsPermutes(shipments: seq<Shipment>, status: Option<string>, customerId: Option<int>,
                             fromDate: Option<Instant>, toDate: Option<Instant>)
    ensures multiset(GetShipments(shipments, status, customerId, fromDate, toDate))
         == multiset(Filter(shipments, s => ListedShipment(s, status, customerId, fromDate, toDate)))
  {
  }

  lemma NewestFirst(r: seq<Shipment>)
    requires forall a, b :: 0 <= a < b < |r| ==> CreatedAtKey(r[a]) >= CreatedAtKey(r[b])
    ensures forall a, b :: 0 <= a < b < |r| ==> r[a].createdAt >= r[b].createdAt
  {
  }

  /** GET api/shipments/{id}/history: the ledger entries of shipment `id`, latest first. */
  function GetShipmentHistory(history: seq<StatusEntry>, id: int): (r: seq<StatusEntry>)
    ensures forall e :: e in r <==> e in history && e.shipmentId == id
    ensures |r| == CountWhere(history, (e: StatusEntry) => e.shipmentId == id)
    ensures forall a, b :: 0 <= a < b < |r| ==> r[a].updatedAt >= r[b].updatedAt
  {
    var r := SelectDescending(history, (e: StatusEntry) => e.shipmentId == id, UpdatedAtKey);
    assert forall a, b :: 0 <= a < b < |r| ==> UpdatedAtKey(r[a]) >= UpdatedAtKey(r[b]);
    r
  }

  /** The history is a reordering of that shipment's entries. */
  lemma GetShipmentHistoryPermutes(history: seq<StatusEntry>, id: int)
    ensures multiset(GetShipmentHistory(history, id)) == multiset(Filter(history, (e: StatusEntry) => e.shipmentId == id))
  {
  }
}
