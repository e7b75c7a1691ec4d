/** The persisted records (the Models folder) and the replies of the controllers. Navigation
    properties are left out: the model joins records through their ids. */
module Models {
  import opened Wrappers
  import opened Calendar

  /** A .NET `decimal` amount, exact. */
  type Money = real

  datatype User = User(
    id: nat, username: string, passwordHash: string, fullName: string, email: string,
    role: string, createdAt: Instant, isActive: bool)

  datatype Customer = Customer(
    id: nat, name: string, contactPerson: string, email: string, phone: string,
    address: string, city: string, country: string, createdAt: Instant, isActive: bool)

  datatype Vendor = Vendor(
    id: nat, name: string, contactPerson: string, email: string, phone: string,
    serviceType: string, address: string, city: string, country: string,
    createdAt: Instant, isActive: bool)

  datatype Shipment = Shipment(
    id: nat, number: string, customerId: nat, vendorId: nat,
    originCity: string, originCountry: string, destinationCity: string,
    destinationCountry: string, transportMode: string, weight: Money, volume: Money,
    cargoDescription: string, estimatedCost: Money, actualCost: Money, status: string,
    bookingDate: Instant, expectedDeliveryDate: Instant,
    actualDeliveryDate: Option<Instant>, createdBy: nat, createdAt: Instant,
    updatedAt: Instant)

  /** One row of the shipment status ledger (ShipmentStatusHistory). */
  datatype StatusEntry = StatusEntry(
    id: nat, shipmentId: nat, status: string, remarks: string, updatedBy: nat,
    updatedAt: Instant)

  datatype Invoice = Invoice(
    id: nat, number: string, shipmentId: nat, customerId: nat, invoiceDate: Instant,
    dueDate: Instant, subTotal: Money, taxAmount: Money, totalAmount: Money,
    paymentStatus: string, paidAmount: Money, paidDate: Option<Instant>, createdBy: nat,
    createdAt: Instant)

  datatype PricingRule = PricingRule(
    id: nat, transportMode: string, baseRate: Money, distanceMultiplier: Money,
    minimumCharge: Money, isActive: bool)

  /** Shipment statuses (Shipment.cs:58; "Booked" is the default). */
  const Booked := "Booked"
  const InTransit := "In Transit"
  const Delivered := "Delivered"
  const Cancelled := "Cancelled"

  /** Invoice payment statuses (Invoice.cs:36; "Pending" is the default). */
  const Pending := "Pending"
  const Paid := "Paid"
  const Overdue := "Overdue"

  /** What a controller action answers: 200/201/204 with a value, 404, 400 with a
      message, or 500 (an exception the database layer raises, such as a violated
      unique index or foreign key). */
  datatype Reply<+T> = Ok(value: T) | NotFound | BadRequest(message: string) | ServerError(message: string)

  /** The caller's id from the NameIdentifier claim, 1 when the claim is absent. */
  function CallerId(claim: Option<nat>): nat {
    claim.GetOr(1)
  }
}
