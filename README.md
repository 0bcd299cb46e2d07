# Order book of an in-memory order service

A model of the order-processing core of a small Go web service (`main.go`).
The service keeps two in-memory tables: a product catalog keyed by product
ID, each entry with a live availability count, and an order table keyed by
order ID. Two operations change them:

- **Place order** walks the requested (product ID, quantity) lines in
  order. A line is rejected when its product is not in the catalog, or when
  its quantity exceeds the product's current availability or the per-line cap
  of 10. An accepted line adds quantity × price to a running total; on each
  Premium line at which at least three Premium lines have been seen, the whole
  running total is multiplied by 9/10. The product's availability is
  decremented at once, and the rebuilt entry is recorded in the order. When
  every line is accepted, the order is stored under ID `|orders| + 1` with
  status "Placed".
- **Update status** looks an order up by ID and overwrites its status with any
  string; it stamps the dispatch date with the current time only when the new
  status is "Dispatched".

Modules:

- `Wrappers` (wrappers.dfy): `Option` and `Result`.
- `Pricing` (pricing.dfy): the running total `Value` over the accepted lines,
  and a reference definition `Discounted` in which every line's cost is
  discounted once per triggering Premium line at or after it.
- `Catalog` (catalog.dfy): products, request lines, the seeded catalog, the
  check-and-decrement of one line (`Reserve`) and the walk over a whole
  request (`ReserveAll`), which ends either `Accepted` or `Rejected` at a line
  index with the catalog as the earlier lines left it.
- `Reservation` (reservation.dfy): what the walk guarantees: acceptance
  conditions, the catalog after a rejection, stock accounting, snapshots and
  prices.
- `Orders` (orders.dfy): the order record and the class `OrderBook` with the
  two tables as `map` fields and the two operations as methods. `PlaceOrder`
  runs the source's loop with invariants that tie it to `ReserveAll` and
  `Value`; `UpdateStatus` is the read-modify-write of one order.
- `Scenarios` (scenarios.dfy): worked requests on the seeded catalog.

Where the code and a natural reading of the service's design differ, the
model follows the code:

- A request is not all-or-nothing. The catalog is decremented inside the loop,
  so a request rejected at line k keeps the decrements of lines 0..k-1
  (`Reservation.RejectedAtFirstFailure`, `Scenarios.DuplicateLinesOnSeed`).
- The discount counts Premium lines, not distinct Premium products, and it
  compounds: every Premium line from the third on multiplies the whole total
  again. Lines that are not Premium never discount.
- Order IDs are the table size plus one. They are fresh only because the keys
  stay exactly 1..n (`Orders.DenseIds`), which holds as no order is ever removed.
- Quantities are not checked to be positive: a zero or negative quantity passes
  the checks, and a negative one raises the availability. A negative quantity
  also has a negative cost, so the stored order value can be negative
  (`Scenarios.NegativeQuantityAccepted`), although the design describes the
  order value as non-negative. It is non-negative whenever every quantity and
  price is (`Pricing.ValueNonNegative`). A request with no
  lines is accepted and stored as an order of value 0.
- Dispatching twice re-stamps the dispatch date (`Orders.RedispatchRestamps`).

## Model

| member | source | states |
|---|---|---|
| `Pricing.PremiumCountAppend` | main.go:113-114 | A new line raises the Premium count by one exactly when its category is Premium. |
| `Pricing.ValueAppend` | main.go:110-118 | Each line adds quantity × price to the running total; the whole total so far is then multiplied by 9/10 exactly when the line is Premium and brings the Premium count to at least 3; a non-Premium line never discounts. |
| `Pricing.NoDiscountBelowThreshold` | main.go:112-118 | With fewer than three Premium lines the order value is the plain sum of quantity × price. |
| `Pricing.ValueNonNegative` | main.go:110-118 | With no negative quantity and no negative price, the order value is non-negative: each line only adds quantity × price and may multiply the total by 9/10. |
| `Pricing.ValueClosedForm` | main.go:110-118 | The running total equals the sum of all line costs, each multiplied by 9/10 once for every triggering Premium line at or after it (the compounding made explicit). |
| `Catalog.ReserveSpec` | main.go:97-128 | One line passes exactly when its product is known and its quantity is within current availability and the cap of 10; an unknown product gives ProductNotFound, otherwise a failing line gives QuantityNotAvailable; on success only that product's entry changes, its availability drops by exactly the quantity, ID, name, category and price are kept, quantity is zero, and the post-decrement entry is appended to the snapshots. |
| `Catalog.ReserveAll` | main.go:96-129 | The walk never adds or removes catalog keys; a rejection names a line of the request; an accepted request has one snapshot and one priced line per requested line, and every requested ID is in the catalog. |
| `Reservation.AcceptedStep` | main.go:110-128 | A line that passes its checks after the earlier lines were accepted is accepted: its product's entry is rebuilt with the same ID, name, category and price and the availability lowered by the quantity, that rebuilt entry is recorded, and the line is priced at the product's price and category. |
| `Reservation.RejectionSticks` | main.go:99-108 | Once a prefix of the request is rejected, the whole request is rejected with the same error, index and catalog: the handler returns at the first failing line. |
| `Reservation.RejectedAtLine` | main.go:98-107 | A line that fails its checks after all earlier lines were accepted rejects the request at that index with the catalog the earlier lines left, with ProductNotFound or QuantityNotAvailable according to the cause. |
| `Reservation.AcceptedIff` | main.go:98-108 | A request is accepted if and only if every line, in order, names a known product and asks for no more than the availability left by the earlier lines and no more than 10. |
| `Reservation.RejectedAtFirstFailure` | main.go:96-127 | A rejected request was rejected at a line that fails its checks, after every earlier line was accepted; the catalog keeps those earlier decrements; the error is QuantityNotAvailable for a known product and ProductNotFound otherwise. |
| `Reservation.AvailabilityStaysNonNegative` | main.go:105-126 | Starting from a catalog with no negative availability, no availability is negative after the request, whether it is accepted or rejected. |
| `Reservation.RequestedAppend` | main.go:121-127 | The quantity requested for a product grows by a new line's quantity exactly when the line names that product. |
| `Reservation.AcceptedAccounting` | main.go:121-127 | After an accepted request every product keeps its ID, name, category and price, its availability is lower by exactly the total quantity its lines requested, a named product's quantity field is zero, and a product no line names is unchanged. |
| `Reservation.StockAccounting` | main.go:96-129 | For any request, every product's availability is lowered by exactly the quantities of the lines accepted before the walk ended: all lines if accepted, the lines before the failing one if rejected. |
| `Reservation.PricedFromCatalog` | main.go:110-113 | The lines priced for an accepted request carry the requested quantities with the prices and categories of the catalog as it was before the request. |
| `Reservation.SnapshotsInRequestOrder` | main.go:121-128 | The k-th product recorded in an accepted order is the entry of the k-th line's product just after that line's decrement, with availability lowered by that line's quantity. |
| `Reservation.DuplicateLinesCompete` | main.go:98-127 | Two lines for the same product that each pass alone but together exceed its availability: the first is accepted, the second is rejected with QuantityNotAvailable at index 1, and the first decrement stays. |
| `Reservation.LastUnitGoesOnce` | main.go:105-126 | Of two requests in a row for the last unit of a product, the first is accepted and the second is rejected with QuantityNotAvailable. |
| `Orders.WithStatus` | main.go:173-177 | The updated order has the supplied status, whatever it is; its dispatch date is the supplied time exactly when the status is "Dispatched" and is kept otherwise; its ID, products and value are unchanged. |
| `Orders.RedispatchRestamps` | main.go:174-176 | Dispatching an already dispatched order stamps the later time. |
| `Orders.NextIdIsFresh` | main.go:132-138 | When the order keys are exactly 1..n, the ID n + 1 is not in use and inserting under it keeps the keys exactly 1..n+1. |
| `Orders.OrderBook.constructor` | main.go:31-41 | The service starts with the six seeded products and no orders. |
| `Orders.OrderBook.PlaceOrder` | main.go:96-143 | The catalog becomes the one the reservation walk leaves, even on rejection; on rejection the error is returned and no order is stored; on acceptance one order is stored under the fresh ID \|orders\| + 1 with the post-decrement snapshots, the value of the running total over the requested quantities at the catalog's prices, no dispatch date and status "Placed", and every earlier order is unchanged; non-negative availability and dense order IDs are preserved. |
| `Orders.OrderBook.UpdateStatus` | main.go:164-179 | An unknown ID leaves both tables unchanged and returns OrderNotFound; a known ID replaces only that order by its status-updated version and returns it; the catalog is untouched. |
| `Scenarios.PremiumSpan` | main.go:113-117 | Three Premium lines: three are counted and the third discounts the sum of all three costs by 9/10. |
| `Scenarios.FiveOfProductOne` | main.go:105-127 | Five units of product 1 (price 100, 10 available) are accepted at value 500 and leave 5 available. |
| `Scenarios.CapRefusesEleven` | main.go:105-107 | Eleven units of product 3 are refused by the cap although 30 are available, and the catalog is unchanged. |
| `Scenarios.UnknownProductRefused` | main.go:98-101 | A line for an unknown product is refused with ProductNotFound and the catalog is unchanged. |
| `Scenarios.NegativeQuantityAccepted` | main.go:105-127 | A line of -3 units of product 2 (price 150, 20 available) passes the checks, raises the availability to 23 and gives the order value -450. |
| `Scenarios.ThirdPremiumLineDiscounts` | main.go:110-118 | Premium lines priced 100, 100 and 90 give 290 discounted to 261. |
| `Scenarios.FourthPremiumLineCompounds` | main.go:113-117 | A fourth Premium line of price 100 discounts the whole total again: (261 + 100) × 9/10. |
| `Scenarios.RegularLineAfterThresholdUndiscounted` | main.go:111-118 | A Regular line of price 150 after three Premium lines is added to 261 without discount. |
| `Scenarios.DuplicateLinesOnSeed` | main.go:98-127 | Two lines of 6 units of product 1 (10 available): the second is refused at index 1 and the first line's decrement stays, leaving 4. |

## Left out

- The HTTP layer: method switches, error responses, the router and the server
  start-up. The two listing handlers only copy map values into a list whose
  order follows Go's unspecified map iteration.
- JSON decoding and encoding. A place-order request is modelled as the
  sequence of its (product ID, quantity) lines; a status update as an order
  ID and a status string. A malformed body, which the handlers reject before
  any logic runs, is not modelled.
- The response of a successful place-order is the decoded request with its ID,
  status, products and value overwritten, so it echoes any other field the
  client sent (a dispatch date, say). `PlaceOrder` returns the stored order.
- The mutex. Both operations are modelled as sequential atomic methods; the
  lock in the source does not cover the catalog writes, and concurrent
  interleavings are not modelled.
- Floating point. Prices and order values are exact reals and the discount is
  exact multiplication by 9/10; IEEE rounding is not captured.
- The clock. The current time is a parameter of `UpdateStatus`; Go's zero
  `time.Time` of an undispatched order is `None`.
- 64-bit integer wrap-around of Go's `int` in `availability - quantity` and in
  `len(OrderMap) + 1`: integers are unbounded. In particular
  `Reservation.AvailabilityStaysNonNegative` holds only for unbounded integers:
  in Go a line with a huge negative quantity (for product 1, -(2^63 - 5)) passes
  the checks and `availability - quantity` wraps to a negative availability.
