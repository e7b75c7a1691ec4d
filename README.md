# FreightERP core in Dafny

FreightERP is a small freight-forwarding back office: an ASP.NET Core API over an
SQLite database (EF Core) with a React front end. This project models the business
core of its back end and proves properties of that model:

- the freight cost calculator (first active pricing rule for the transport mode,
  weight and distance charges, minimum-charge floor, rounding to cents);
- the database itself: its tables, unique indexes (user name, shipment number,
  invoice number), foreign keys, and the pricing rules and administrator it is
  created with;
- shipment booking with generated `SHP-yyyyMMdd-NNN` numbers, full updates, status
  updates and the status-history ledger;
- invoicing with generated `INV-yyyyMMdd-NNN` numbers, 18% GST, 30-day terms and
  payment updates;
- the demonstration-data loader, including the loop that derives one invoice per
  delivered shipment;
- the dashboard aggregations (summary counts and sums, the six-month revenue trend,
  shipments by transport mode, top customers, delayed shipments);
- customer and vendor listing (active only, search, ordering, paging) and their
  create, update and soft delete.

Modules and files:

| module | file | what it holds |
|---|---|---|
| `Wrappers` | wrappers.dfy | `Option` |
| `Rounding` | rounding.dfy | `Math.Round(x, 2)`, which rounds half to even |
| `Text` | text.dfy | digits, zero padding (`D3`), `Contains`, `IsNullOrWhiteSpace` |
| `Calendar` | calendar.dfy | instants, the proleptic Gregorian calendar, `AddDays`, `AddMonths`, first of the month |
| `Numbering` | numbering.dfy | the `PFX-yyyyMMdd-NNN` document numbers |
| `Models` | models.dfy | the records, the status constants and the `Reply` of a controller action |
| `FreightContext` | context.dfy | the `Store` class: the tables, with their keys, unique indexes and foreign keys as its invariant |
| `Queries` | queries.dfy | the LINQ operators used: `Where`, `Count`, `Sum`, `OrderBy`, `Skip`/`Take`, `GroupBy` |
| `CostCalculation` | cost_calculation.dfy | CostCalculationService and the calculate-cost endpoint |
| `Invoices` | invoices.dfy | InvoicesController |
| `Shipments` | shipments.dfy | ShipmentsController |
| `Seed` | seed.dfy | SeedController |
| `Dashboard` | dashboard.dfy | DashboardController |
| `Customers` | customers.dfy | CustomersController |
| `Vendors` | vendors.dfy | VendorsController |

Modelling choices:

- Money (`decimal`) is `real`, which is exact.
- `Math.Round(x, 2)` is modelled as round half to even, the .NET default for `decimal`:
  backend/FreightERP.API/Services/CostCalculationService.cs:42-46 calls the overload
  without a `MidpointRounding` argument.
- A point in time is a whole number of seconds since 0001-01-01T00:00Z (`Instant`); its
  day is `t / 86400` and its date comes from the proleptic Gregorian calendar.
- Every read of `DateTime.UtcNow` within one request is the same instant `now`, a
  parameter. The caller's id, read from the `NameIdentifier` claim, is also a parameter.
  It defaults to 1 when the claim is absent.
- The database is one `Store` object. Its tables are `seq` fields that the controller
  methods reassign. Row `i` of a table has id `i + 1`: rows are never deleted, so
  SQLite's next row id is always the row count plus one.
- The database provider is SQLite (backend/FreightERP.API/Program.cs). That fixes three
  behaviours:
  - a negative `Take` means no limit, and a negative `Skip` means none;
  - `string.Contains` and `==` on text are case-sensitive;
  - foreign keys are enforced.
  An insert or update that would break a unique index or a foreign key raises an
  exception, which the API answers with 500 (`ServerError`).
- Each controller action is a method that takes the store. It states the reply and the
  whole new state, and it keeps the store's invariant.
- Each query is a function over the tables. Its contract says which rows are in the
  result, how many there are and in what order.

## Model

| member | source | states |
|---|---|---|
| `Rounding.Round2` | backend/FreightERP.API/Services/CostCalculationService.cs:42-46 | the result is a whole number of cents within half a cent of the input, and an even number of cents when the input lies exactly halfway |
| `Rounding.Round2Unique` | backend/FreightERP.API/Services/CostCalculationService.cs:42-46 | those three properties pin the rounded value down: any whole-cent value within half a cent, even at a midpoint, is `Round2` of the input |
| `Rounding.RoundHalfEvenUnique` | backend/FreightERP.API/Services/CostCalculationService.cs:42 | nearest-integer-with-ties-to-even determines the rounded value uniquely |
| `Rounding.Round2OfCents` | backend/FreightERP.API/Services/CostCalculationService.cs:42-46 | an amount that already has two decimals is unchanged by rounding |
| `Rounding.Round2Idempotent` | backend/FreightERP.API/Services/CostCalculationService.cs:42-46 | rounding twice is rounding once |
| `Rounding.Round2FixedIffCents` | backend/FreightERP.API/Services/CostCalculationService.cs:42-46 | rounding leaves an amount unchanged exactly when it has at most two decimals |
| `Rounding.Round2Monotone` | backend/FreightERP.API/Services/CostCalculationService.cs:42-46 | rounding never reverses the order of two amounts |
| `Rounding.Round2AtLeast` | backend/FreightERP.API/Services/CostCalculationService.cs:38-42 | an amount at or above a whole-cent floor stays at or above it after rounding |
| `Rounding.Round2TiesToEven` | backend/FreightERP.API/Services/CostCalculationService.cs:42 | midpoints go to the even cent: 0.125 to 0.12, 0.375 to 0.38, -0.125 to -0.12 |
| `Text.ZeroPadRoundTrip` | backend/FreightERP.API/Controllers/InvoicesController.cs:80 | a zero-padded number (`D3`, `MM`, `dd`) reads back as the number |
| `Text.Pad3` | backend/FreightERP.API/Controllers/ShipmentsController.cs:91 | `D3` gives at least three digits, exactly three below 1000 |
| `Text.Pad3Injective` | backend/FreightERP.API/Controllers/InvoicesController.cs:80 | distinct sequence numbers never format alike |
| `Calendar.AddDays` | backend/FreightERP.API/Controllers/InvoicesController.cs:93 | `AddDays(n)` moves by exactly n days, and fails exactly when the result would precede 0001-01-01 |
| `Calendar.WholeDays` | backend/FreightERP.API/Controllers/DashboardController.cs:142 | `TimeSpan.Days` of a non-negative span is the number of whole days it contains |
| `Calendar.CivilRoundTrip` | backend/FreightERP.API/Controllers/DashboardController.cs:25 | turning a day number into a date and back gives the same day number |
| `Calendar.StartOfMonthBefore` | backend/FreightERP.API/Controllers/DashboardController.cs:25 | the first of the month is `day - 1` days before `now`, and less than 31 days before it |
| `Numbering.DocNumber` | backend/FreightERP.API/Controllers/ShipmentsController.cs:91 | a number has its prefix plus 13 characters for a valid four-digit-year date and a sequence number below 1000 |
| `Numbering.DocNumberSequence` | backend/FreightERP.API/Controllers/InvoicesController.cs:80 | the last segment of a document number is all digits and reads back as its sequence number |
| `Numbering.DocNumbersDistinct` | backend/FreightERP.API/Controllers/SeedController.cs:86 | numbers with different sequence numbers differ, whatever their prefixes and dates |
| `Numbering.DocNumberDateInjective` | backend/FreightERP.API/Controllers/ShipmentsController.cs:91 | numbers with the same prefix and sequence number but different dates differ |
| `Numbering.ExampleNumber` | backend/FreightERP.API/Controllers/InvoicesController.cs:80 | invoice 1 of 2026-01-29 is `INV-20260129-001` |
| `FreightContext.Store.constructor` | backend/FreightERP.API/Data/FreightERPContext.cs:81-125 | a new database holds only the three seeded pricing rules and the administrator, and satisfies every key, unique index and foreign key |
| `FreightContext.Store.NoCustomersNoDocuments` | backend/FreightERP.API/Data/FreightERPContext.cs:38-66 | with the foreign keys intact, no customers means no shipments, no history and no invoices |
| `FreightContext.SeedRulesOnePerMode` | backend/FreightERP.API/Data/FreightERPContext.cs:81-109 | the seeded rules give exactly one active rule each for Air, Sea and Road, and none for any other mode |
| `CostCalculation.FindActiveRule` | backend/FreightERP.API/Services/CostCalculationService.cs:24-25 | the result is the first rule that is active and has exactly the mode asked for; there is none exactly when no rule matches |
| `CostCalculation.RuleUsed` | backend/FreightERP.API/Services/CostCalculationService.cs:24-30 | the rule used is in the table, active, and of the request's mode |
| `CostCalculation.CalculateCost` | backend/FreightERP.API/Controllers/ShipmentsController.cs:177-189 | 400 with "No active pricing rule found for transport mode: {mode}" exactly when no active rule matches; otherwise the breakdown under the first matching rule, with the estimate, weight charge and distance charge rounded to cents |
| `CostCalculation.EstimateAtLeastMinimum` | backend/FreightERP.API/Services/CostCalculationService.cs:38-42 | the estimate is never below a whole-cent minimum charge |
| `CostCalculation.EstimateFloor` | backend/FreightERP.API/Services/CostCalculationService.cs:35-42 | below the minimum the estimate is exactly the minimum charge; otherwise it is the rounded raw cost |
| `CostCalculation.FloorComparesUnrounded` | backend/FreightERP.API/Services/CostCalculationService.cs:38-42 | the floor compares the unrounded sum, so a raw 299.995 is floored to 300.00 |
| `CostCalculation.AirExample` | backend/FreightERP.API/Data/FreightERPContext.cs:82-90 | Air, 150.5 kg, 4500 km: 2257.50 + 225.00 gives an estimate of 2482.50 |
| `CostCalculation.SeaExample` | backend/FreightERP.API/Data/FreightERPContext.cs:91-99 | Sea, 10 kg, 50 km: 80.00 + 1.00 is floored to 300.00 |
| `CostCalculation.UnknownModeExample` | backend/FreightERP.API/Services/CostCalculationService.cs:24-30 | "air" in lower case has no rule, because the match is exact |
| `Invoices.NextInvoiceNumber` | backend/FreightERP.API/Controllers/InvoicesController.cs:76-80 | the number starts with `INV-`, and its last segment reads back as today's invoice count plus one |
| `Invoices.SameDayNumbersAdvance` | backend/FreightERP.API/Controllers/InvoicesController.cs:76-80 | an invoice raised later the same day gets the next sequence number, so a different invoice number |
| `Invoices.SubTotalOf` | backend/FreightERP.API/Controllers/InvoicesController.cs:83 | the subtotal is the actual cost when it is positive, else the estimated cost |
| `Invoices.NewInvoice` | backend/FreightERP.API/Controllers/InvoicesController.cs:83-102 | the shipment's customer, an unrounded 18% tax, total = subtotal + tax, due 30 days after the invoice date, Pending with nothing paid |
| `Invoices.InvoiceAmountsOrdered` | backend/FreightERP.API/Controllers/InvoicesController.cs:84-86 | for a non-negative subtotal, 0 <= tax <= total and subtotal <= total |
| `Invoices.CreateInvoice` | backend/FreightERP.API/Controllers/InvoicesController.cs:65-108 | 404 with no change exactly when the shipment is missing; 500 with no change exactly when the number is already taken; otherwise exactly one new invoice, built as NewInvoice says, is appended |
| `Invoices.ApplyPayment` | backend/FreightERP.API/Controllers/InvoicesController.cs:119-125 | status and paid amount are overwritten; the paid date is set to now only for "Paid"; nothing else changes |
| `Invoices.PaidDateSurvivesReopen` | backend/FreightERP.API/Controllers/InvoicesController.cs:121-124 | moving a paid invoice to another status keeps its paid date |
| `Invoices.ApplyPaymentIdempotent` | backend/FreightERP.API/Controllers/InvoicesController.cs:119-125 | repeating the same payment update at the same instant changes nothing more |
| `Invoices.UpdatePaymentStatus` | backend/FreightERP.API/Controllers/InvoicesController.cs:110-130 | 404 with no change exactly when the invoice is missing; otherwise only that invoice changes, as ApplyPayment says |
| `Invoices.GetInvoices` | backend/FreightERP.API/Controllers/InvoicesController.cs:21-47 | exactly the invoices passing the status and customer filters, all of them, newest first |
| `Invoices.GetCustomerInvoices` | backend/FreightERP.API/Controllers/InvoicesController.cs:132-142 | exactly that customer's invoices, latest invoice date first |
| `Invoices.GetInvoicesPermutes` | backend/FreightERP.API/Controllers/InvoicesController.cs:21-47 | the list holds each passing invoice exactly as often as the table does |
| `Invoices.GetCustomerInvoicesPermutes` | backend/FreightERP.API/Controllers/InvoicesController.cs:132-142 | the list holds each of the customer's invoices exactly as often as the table does |
| `Shipments.NextShipmentNumber` | backend/FreightERP.API/Controllers/ShipmentsController.cs:88-91 | the number starts with `SHP-`, and its last segment reads back as the count of shipments booked today plus one |
| `Shipments.SameDayNumbersAdvance` | backend/FreightERP.API/Controllers/ShipmentsController.cs:88-91 | a shipment booked today advances the sequence for the next creation that day |
| `Shipments.OtherBookingDateRepeatsNumber` | backend/FreightERP.API/Controllers/ShipmentsController.cs:88-91 | a shipment created today with another booking date does not advance the sequence, so the next creation computes the same number |
| `Shipments.AsCreated` | backend/FreightERP.API/Controllers/ShipmentsController.cs:91-95 | the stored shipment is the body with the assigned id, the generated number, the caller as creator and both stamps at now, and nothing else changed |
| `Shipments.CreationEntry` | backend/FreightERP.API/Controllers/ShipmentsController.cs:100-108 | the first ledger entry carries the shipment's status, "Shipment created", the caller and now |
| `Shipments.CreationEntryAsWritten` | backend/FreightERP.API/Controllers/ShipmentsController.cs:100-108 | the entry as the source builds it takes the shipment id from the request body |
| `Shipments.CreationEntryAsWrittenMisfiles` | backend/FreightERP.API/Controllers/ShipmentsController.cs:102 | with body id 0 (the usual case) the entry as written refers to no shipment, neither the new one nor any other; the entry recorded by CreateShipment refers to the new shipment. Other body ids fall under the "ignore an id sent in the body" line of "## Left out" |
| `Shipments.CreateShipment` | backend/FreightERP.API/Controllers/ShipmentsController.cs:82-113 | 500 with no change exactly when the customer or vendor is missing or the number is taken; otherwise exactly one shipment and exactly one ledger entry are appended |
| `Shipments.UpdateShipment` | backend/FreightERP.API/Controllers/ShipmentsController.cs:115-140 | 400 exactly when the route id and body id differ, 404 when the row is missing, 500 when a key or index would break; each with no change; otherwise the row becomes the body stamped at now |
| `Shipments.ApplyStatus` | backend/FreightERP.API/Controllers/ShipmentsController.cs:153-159 | the status is stored as given and stamped; the delivery date is set only by a "Delivered" when none is set; nothing else changes |
| `Shipments.DeliveryDateStable` | backend/FreightERP.API/Controllers/ShipmentsController.cs:156-159 | once set, the delivery date survives any run of status updates |
| `Shipments.RedeliveryKeepsFirstDate` | backend/FreightERP.API/Controllers/ShipmentsController.cs:156-159 | a second "Delivered" keeps the first delivery date |
| `Shipments.StatusChangeEntry` | backend/FreightERP.API/Controllers/ShipmentsController.cs:162-170 | the ledger entry records the status, the remarks (or "" when absent), the caller and now |
| `Shipments.UpdateShipmentStatus` | backend/FreightERP.API/Controllers/ShipmentsController.cs:142-175 | 404 with no change exactly when the shipment is missing; otherwise the shipment changes as ApplyStatus says and exactly one ledger entry is appended |
| `Shipments.ServerAcceptsUnofferedTransitions` | frontend/src/pages/Shipments.jsx:526-553 | the client never offers Delivered to Booked, yet the server stores it and keeps the delivery date |
| `Shipments.GetShipments` | backend/FreightERP.API/Controllers/ShipmentsController.cs:26-63 | exactly the shipments passing the status, customer and inclusive booking-date filters, newest first |
| `Shipments.GetShipmentHistory` | backend/FreightERP.API/Controllers/ShipmentsController.cs:191-201 | exactly the ledger entries of that shipment, latest first |
| `Shipments.GetShipmentsPermutes` | backend/FreightERP.API/Controllers/ShipmentsController.cs:26-63 | the list holds each passing shipment exactly as often as the table does |
| `Shipments.GetShipmentHistoryPermutes` | backend/FreightERP.API/Controllers/ShipmentsController.cs:191-201 | the history holds each of the shipment's entries exactly as often as the ledger does |
| `Seed.SeedCustomers` | backend/FreightERP.API/Controllers/SeedController.cs:30-39 | five active customers, ids 1 to 5, created before now |
| `Seed.SeedVendors` | backend/FreightERP.API/Controllers/SeedController.cs:42-51 | five active vendors, numbered after the existing vendors |
| `Seed.SeedShipments` | backend/FreightERP.API/Controllers/SeedController.cs:54-75 | ten shipments with the listed numbers, ids 1 to 10 |
| `Seed.SeedShipmentsDistinct` | backend/FreightERP.API/Controllers/SeedController.cs:54-75 | the seeded shipment numbers are distinct, so the unique index holds |
| `Seed.SeedDeliveredFirst` | backend/FreightERP.API/Controllers/SeedController.cs:79 | the delivered shipments are exactly the first six listed |
| `Seed.SeedInvoice` | backend/FreightERP.API/Controllers/SeedController.cs:84-99 | the derived invoice has the counter as its id and sequence number, and the shipment's id and customer |
| `Seed.SeedInvoiceTerms` | backend/FreightERP.API/Controllers/SeedController.cs:86-97 | numbered and stamped with the delivery date; tax is Round2(cost × 0.18) and total is Round2(cost × 1.18), rounded separately; Paid, in full and 25 days after delivery, exactly when delivery was more than 30 days ago; due 30 days after delivery |
| `Seed.DeriveSeedInvoices` | backend/FreightERP.API/Controllers/SeedController.cs:79-101 | one invoice per delivered shipment, in order, the k-th numbered k |
| `Seed.DerivedNumbersDistinct` | backend/FreightERP.API/Controllers/SeedController.cs:80-86 | the global counter makes every derived invoice number distinct, whatever the delivery dates |
| `Seed.SeedTablesKeyed` | backend/FreightERP.API/Controllers/SeedController.cs:30-75 | the seeded rows take the ids the inserts assign and the shipments refer to seeded customers and vendors |
| `Seed.SeedInvoicesKeyed` | backend/FreightERP.API/Controllers/SeedController.cs:82-103 | six invoices with ids 1 to 6, referring to seeded shipments and customers |
| `Seed.SeparateRoundingMissesByACent` | backend/FreightERP.API/Controllers/SeedController.cs:90-91 | for a subtotal of 0.25, the rounded total is one cent away from subtotal plus rounded tax |
| `Seed.TotalAgreesWhenTaxExact` | backend/FreightERP.API/Controllers/SeedController.cs:90-91 | when the exact tax is whole cents, total = subtotal + tax |
| `Seed.SeededTaxesExact` | backend/FreightERP.API/Controllers/SeedController.cs:57-62 | the six seeded actual costs are whole cents with a tax of whole cents, so each derived invoice's total is exactly its subtotal plus its tax |
| `Seed.SeededPayments` | backend/FreightERP.API/Controllers/SeedController.cs:92-95 | of the six seeded invoices, those delivered 52, 42 and 37 days ago are Paid and the rest Pending |
| `Seed.SaveSeedCustomers` | backend/FreightERP.API/Controllers/SeedController.cs:38-39 | the customer table becomes the seeded customers, and the invariant holds |
| `Seed.SaveSeedVendors` | backend/FreightERP.API/Controllers/SeedController.cs:50-51 | the seeded vendors are appended, and the invariant holds |
| `Seed.SaveSeedShipments` | backend/FreightERP.API/Controllers/SeedController.cs:74-75 | the shipment table becomes the seeded shipments, and the invariant holds |
| `Seed.SaveSeedInvoices` | backend/FreightERP.API/Controllers/SeedController.cs:102-103 | the invoice table becomes the invoices derived from the delivered shipments, and the invariant holds |
| `Seed.PopulateTestData` | backend/FreightERP.API/Controllers/SeedController.cs:22-118 | 400 with no change exactly when customers exist; 500 with no change when a seeded date would fall before year 1; otherwise all four tables are loaded and the report says 5, 5, 10 and 6 |
| `Dashboard.GetSummary` | backend/FreightERP.API/Controllers/DashboardController.cs:21-58 | this month's shipment count is the number booked since the first of the month, the active count the number Booked or In Transit; each count is 0 exactly when nothing qualifies; the pending count and amount cover exactly the Pending or Overdue invoices; revenue sums the invoices since the first of the month |
| `Dashboard.BookedNowCountsThisMonth` | backend/FreightERP.API/Controllers/DashboardController.cs:25-28 | a shipment booked at or after now counts in this month's total |
| `Dashboard.SummaryAmountsBounded` | backend/FreightERP.API/Controllers/DashboardController.cs:38-47 | with non-negative totals, the pending amount and the month's revenue lie between 0 and the sum of all invoices |
| `Dashboard.DelayedRow` | backend/FreightERP.API/Controllers/DashboardController.cs:131-142 | a row carries the shipment's id, number, cities, status and expected date, the names of its customer and vendor, and the whole days it is late |
| `Dashboard.JoinFindsParties` | backend/FreightERP.API/Controllers/DashboardController.cs:125-135 | in a store whose foreign keys hold, every shipment's customer and vendor exist, and the names looked up are theirs |
| `Dashboard.DelayedInOrder` | backend/FreightERP.API/Controllers/DashboardController.cs:125-128 | exactly the delayed shipments, earliest expected date first |
| `Dashboard.GetDelayedShipments` | backend/FreightERP.API/Controllers/DashboardController.cs:120-147 | one row per delayed shipment, earliest expected date first |
| `Dashboard.DelayedListComplete` | backend/FreightERP.API/Controllers/DashboardController.cs:125-142 | every delayed shipment has a row, and every row comes from a delayed shipment |
| `Dashboard.SummaryCountsDelayedList` | backend/FreightERP.API/Controllers/DashboardController.cs:33-36 | the summary's delayed count equals the length of the delayed list |
| `Dashboard.MonthLabel` | backend/FreightERP.API/Controllers/DashboardController.cs:72 | for a four-digit year the label has seven characters, a hyphen at index 4, and its two digit runs read back as the year and the month |
| `Dashboard.MonthLabelOrder` | backend/FreightERP.API/Controllers/DashboardController.cs:72-78 | comparing two labels character by character orders them exactly as their months |
| `Dashboard.TrendMonths` | backend/FreightERP.API/Controllers/DashboardController.cs:69-78 | the months of the window, each once, ascending |
| `Dashboard.GetRevenueTrend` | backend/FreightERP.API/Controllers/DashboardController.cs:60-81 | 500 exactly when six months before now precedes year 1; otherwise one row per month of the window |
| `Dashboard.TrendRows` | backend/FreightERP.API/Controllers/DashboardController.cs:69-76 | each row holds its month's revenue and invoice count |
| `Dashboard.TrendRowsTotals` | backend/FreightERP.API/Controllers/DashboardController.cs:69-76 | the rows' revenues and counts are the group sums of the window |
| `Dashboard.TrendAddsUp` | backend/FreightERP.API/Controllers/DashboardController.cs:63-78 | the monthly revenues add up to the window's revenue, and the counts to its invoice count |
| `Dashboard.ModeRows` | backend/FreightERP.API/Controllers/DashboardController.cs:88-96 | each row has its mode's count and its share of the total |
| `Dashboard.GetShipmentsByMode` | backend/FreightERP.API/Controllers/DashboardController.cs:83-99 | one row per mode present, each mode once, with a positive count and the percentage count/total*100 |
| `Dashboard.ModeRowsCover` | backend/FreightERP.API/Controllers/DashboardController.cs:88-96 | every shipment's mode has a row, and every row's mode has a shipment |
| `Dashboard.ModeRowsDistinct` | backend/FreightERP.API/Controllers/DashboardController.cs:88-96 | modes are distinct and every count is positive |
| `Dashboard.ModeCountsAddUp` | backend/FreightERP.API/Controllers/DashboardController.cs:86-96 | the counts per mode add up to the number of shipments |
| `Dashboard.ModePercentagesAddUp` | backend/FreightERP.API/Controllers/DashboardController.cs:86-94 | with at least one shipment, the percentages add up to 100 |
| `Dashboard.CustomerRows` | backend/FreightERP.API/Controllers/DashboardController.cs:104-112 | one row per customer id, in the given order |
| `Dashboard.RankedIds` | backend/FreightERP.API/Controllers/DashboardController.cs:104-113 | each invoiced customer once, by revenue descending |
| `Dashboard.RankedCustomers` | backend/FreightERP.API/Controllers/DashboardController.cs:104-113 | each invoiced customer has exactly one row, and the rows are by revenue descending |
| `Dashboard.RankedFacts` | backend/FreightERP.API/Controllers/DashboardController.cs:104-113 | the ranked rows cover exactly the invoiced customers, once each |
| `Dashboard.GetTopCustomers` | backend/FreightERP.API/Controllers/DashboardController.cs:101-118 | a prefix of the ranking exactly min(`limit`, number of invoiced customers) long (all of it when `limit` is negative), by revenue descending |
| `Dashboard.TopCustomersDominate` | backend/FreightERP.API/Controllers/DashboardController.cs:104-115 | a customer left out earns no more than any listed customer |
| `Dashboard.CustomerRowsTotal` | backend/FreightERP.API/Controllers/DashboardController.cs:104-112 | the rows' revenues are the group sums per customer |
| `Dashboard.RankedAddsUp` | backend/FreightERP.API/Controllers/DashboardController.cs:104-113 | the ranked revenues add up to the total invoiced |
| `Customers.Matching` | backend/FreightERP.API/Controllers/CustomersController.cs:27-38 | exactly the active customers whose name, email or phone contains a non-blank search, newest first |
| `Customers.GetCustomers` | backend/FreightERP.API/Controllers/CustomersController.cs:21-46 | the total count is the number of matches; the page is the run of matches starting at the skip, (page-1)*pageSize computed in wrapping 32-bit `int` arithmetic (no skip when negative), exactly min(pageSize, matches left) long, or all that are left when pageSize is negative |
| `Customers.PageSkipWraps` | backend/FreightERP.API/Controllers/CustomersController.cs:24-41 | the skip wraps around: pages 65537 and 32769 of size 65536 return the first page |
| `Customers.MatchingPermutes` | backend/FreightERP.API/Controllers/CustomersController.cs:27-39 | the list holds each listed customer exactly as often as the table does |
| `Customers.PageListedInOrder` | backend/FreightERP.API/Controllers/CustomersController.cs:27-42 | every customer on a page is listed, and a page is newest first |
| `Customers.PageKeepsOrder` | backend/FreightERP.API/Controllers/CustomersController.cs:38-42 | paging a newest-first list keeps it newest first |
| `Customers.EveryMatchOnItsPage` | backend/FreightERP.API/Controllers/CustomersController.cs:38-42 | for a positive page and page size, match k = (page-1)*pageSize + i with i < pageSize is item i of that page, whenever k fits an `int` |
| `Customers.CreateCustomer` | backend/FreightERP.API/Controllers/CustomersController.cs:64-71 | exactly one customer, the body with the next id, is appended |
| `Customers.UpdateCustomer` | backend/FreightERP.API/Controllers/CustomersController.cs:73-97 | 400 exactly when the ids differ, 404 exactly when the row is missing, each with no change; otherwise the row becomes the body |
| `Customers.Deactivated` | backend/FreightERP.API/Controllers/CustomersController.cs:108 | only `IsActive` changes, to false |
| `Customers.DeleteCustomer` | backend/FreightERP.API/Controllers/CustomersController.cs:99-112 | 404 with no change exactly when the customer is missing; otherwise only that row is deactivated and stays in the table |
| `Customers.DeletedNotListed` | backend/FreightERP.API/Controllers/CustomersController.cs:27-108 | after a soft delete the customer is listed under no search, and whether any other customer is listed is unchanged |
| `Customers.DeactivatedIdempotent` | backend/FreightERP.API/Controllers/CustomersController.cs:108 | deleting twice is deleting once |
| `Vendors.GetVendors` | backend/FreightERP.API/Controllers/VendorsController.cs:21-45 | exactly the active vendors passing the search (name or email) and exact service-type filters, newest first |
| `Vendors.GetVendorsPermutes` | backend/FreightERP.API/Controllers/VendorsController.cs:24-42 | the list holds each passing vendor exactly as often as the table does |
| `Vendors.NoFiltersListsActive` | backend/FreightERP.API/Controllers/VendorsController.cs:26 | without filters the list holds exactly the active vendors |
| `Vendors.ServiceFilterNarrows` | backend/FreightERP.API/Controllers/VendorsController.cs:35-38 | a service-type filter only removes vendors |
| `Vendors.CreateVendor` | backend/FreightERP.API/Controllers/VendorsController.cs:62-69 | exactly one vendor, the body with the next id, is appended |
| `Vendors.UpdateVendor` | backend/FreightERP.API/Controllers/VendorsController.cs:71-95 | 400 exactly when the ids differ, 404 exactly when the row is missing, each with no change; otherwise the row becomes the body |
| `Vendors.Deactivated` | backend/FreightERP.API/Controllers/VendorsController.cs:106 | only `IsActive` changes, to false |
| `Vendors.DeleteVendor` | backend/FreightERP.API/Controllers/VendorsController.cs:97-110 | 404 with no change exactly when the vendor is missing; otherwise only that row is deactivated and stays in the table |
| `Vendors.DeletedNotListed` | backend/FreightERP.API/Controllers/VendorsController.cs:26-106 | after a soft delete the vendor is listed under no filter, and whether any other vendor is listed is unchanged |

## Left out

- Authentication (AuthController), the JWT, CORS and dependency-injection set-up in
  Program.cs, and the React front end are not modelled. The one exception is the
  front end's status-button gating, which is modelled as
  `Shipments.ClientOffersTransition`.
- The single-record GET actions (`GetInvoice`, `GetShipment`, `GetCustomer`,
  `GetVendor`) are not modelled: each is a lookup by id answering 404 when absent.
- EF Core mechanics are not modelled: change tracking, `Include` of navigation
  properties, async calls and concurrency tokens. So is the re-throw of a
  `DbUpdateConcurrencyException` for a row that exists. Requests run one at a time.
  Two concurrent creations can therefore compute the same document number; in the
  source, only the unique index stops that.
- Validation attributes on the models (`[Required]`, `[MaxLength]`, `[EmailAddress]`)
  are not modelled. They would answer 400 before the action runs.
- The foreign keys to the users table are not modelled: `CreatedBy` of shipments and
  invoices (Shipment.cs:79, Invoice.cs:54) and `UpdatedBy` of ledger entries
  (ShipmentStatusHistory.cs:29). Users are never created by the modelled actions, and
  the creating actions take these ids from the caller's claim. `Shipments.UpdateShipment`
  stores the body's `CreatedBy` as sent; for an id that is no user the source would
  answer 500, which the model does not.
- Creations ignore an id sent in the body and give the row the next id. In the source
  a free nonzero body id becomes the row's key, and then the initial ledger entry of
  ShipmentsController.cs:102 names the new shipment correctly; a body id that collides
  with an existing row raises a 500.
- `Calendar.AddDays`, `Calendar.MonthsBefore`: the upper end of `DateTime`'s range
  (year 9999) is not modelled; the lower end is, as an error.
- `decimal`'s 28-digit precision and overflow are not modelled. Neither is the inexact
  decimal division in the mode percentage: `Dashboard.Percentage` divides exactly.
- `Text.IsWhiteSpace`: it covers the Latin-1 white-space characters, not every
  Unicode space separator that `char.IsWhiteSpace` accepts.
- `Dashboard.GetShipmentsByMode`: the modes come in order of first appearance. The
  source's `GroupBy` translated to SQL leaves the order unspecified, so any order the
  database picks has the same rows.
- `Dashboard.GetTopCustomers`: customers with equal revenue may come in a different
  order in the source, where the tie order is unspecified.
- `Dashboard.GetRevenueTrend`: months are ordered by the number year*100+month, not by
  the "YYYY-MM" text. `Dashboard.MonthLabelOrder` proves the two orders agree for
  four-digit years under ordinal comparison. The culture-sensitive comparison that the
  in-memory `OrderBy` of DashboardController.cs:77 uses is not modelled; on these
  same-shaped digit labels it is expected to agree.
- `Customers.Matching`, `Vendors.GetVendors`, `Shipments.GetShipments`,
  `Shipments.GetShipmentHistory`, `Invoices.GetInvoices`, `Invoices.GetCustomerInvoices`,
  `Dashboard.DelayedInOrder`: rows with equal sort keys keep their table order. The
  source sorts in SQL: by `CreatedAt` (CustomersController.cs:39, VendorsController.cs:41,
  ShipmentsController.cs:59, InvoicesController.cs:43), by `UpdatedAt`
  (ShipmentsController.cs:197), by `InvoiceDate` (InvoicesController.cs:138) and by
  `ExpectedDeliveryDate` (DashboardController.cs:131). SQLite leaves the order of ties
  unspecified.
- `Dashboard.GetDelayedShipments`: customer and vendor names are looked up by id. The
  source's inner join drops no row, because the foreign keys guarantee both exist
  (`Dashboard.JoinFindsParties`).
- `Seed.PopulateTestData`: the guard looks only at customers, so the seeded vendors
  are appended after any existing ones, as in the source. The catch-all 500 is modelled
  for the one failure the model can produce, a date before year 1.

## Findings

| source | as written | input that shows it | evidently intended | confidence | as-written member | corrected member |
|---|---|---|---|---|---|---|
| backend/FreightERP.API/Controllers/ShipmentsController.cs:102 | the initial ledger entry copies `ShipmentId` from the body before the insert assigns the id, and nothing links the entry to the new shipment | a POST whose body has no id (0): the entry's `ShipmentId` is 0, which is no shipment, so the ledger's foreign key breaks unless EF Core happens to carry its temporary key over | the entry refers to the shipment just created | medium, not executed: the outcome depends on how the EF Core version handles temporary keys | `Shipments.CreationEntryAsWrittenMisfiles` | `Shipments.CreateShipment` |
