/**
 * The service's two tables and the two operations that change them: placing
 * an order (placeOrderHandler) and updating an order's status
 * (updateOrderStatusHandler).
 */
module Orders {
  import opened Wrappers
  import opened Pricing
  import opened Catalog
  import opened Reservation

  const PlacedStatus: string := "Placed"
  const DispatchedStatus: string := "Dispatched"

  /** A clock reading, supplied by the caller. */
  type Instant = int

  /** An order record. `dispatchDate` is None until a dispatch stamps it. */
  datatype Order = Order(id: int, products: seq<Product>, orderValue: real,
                         dispatchDate: Option<Instant>, status: string)

  /** The order keys are exactly 1..n and every order is stored under its own ID. */
  ghost predicate DenseIds(orders: map<int, Order>)
  {
    && (forall id :: id in orders <==> 1 <= id <= |orders|)
    && (forall id :: id in orders ==> orders[id].id == id)
  }

  /** The order after a status update: the new status, whatever it is, and a
      dispatch date stamped with `now` exactly when the status is "Dispatched". */
  function WithStatus(o: Order, status: string, now: Instant): (r: Order)
    ensures r.status == status
    ensures r.dispatchDate == if status == DispatchedStatus then Some(now) else o.dispatchDate
    ensures r.id == o.id && r.products == o.products && r.orderValue == o.orderValue
  {
    var stamped := if status == DispatchedStatus then o.(dispatchDate := Some(now)) else o;
    stamped.(status := status)
  }

  /** Dispatching twice stamps the later time: the stamp is not kept from the
      first dispatch. */
  lemma RedispatchRestamps(o: Order, first: Instant, second: Instant)
    ensures WithStatus(WithStatus(o, DispatchedStatus, first), DispatchedStatus, second).dispatchDate
            == Some(second)
  {
  }

  /** Appending under the next ID keeps the keys exactly 1..n+1. */
  lemma NextIdIsFresh(orders: map<int, Order>, o: Order)
    requires DenseIds(orders)
    requires o.id == |orders| + 1
    ensures o.id !in orders
    ensures DenseIds(orders[o.id := o])
  {
    var next := orders[o.id := o];
    assert next.Keys == orders.Keys + {o.id};
  }

  class OrderBook {
    var catalog: map<int, Product>
    var orders: map<int, Order>

    ghost predicate Valid()
      reads this
    {
      NonNegative(catalog) && DenseIds(orders)
    }

    /** The seeded catalog and no orders. */
    constructor ()
      ensures Valid()
      ensures catalog == SeedCatalog() && orders == map[]
    {
      catalog := SeedCatalog();
      orders := map[];
    }

    /** Walks the request lines in order, reserving each against the live
        catalog, and on success records the order under ID |orders| + 1 with
        status "Placed". A rejection records no order but keeps the earlier
        lines' decrements. */
    method PlaceOrder(request: seq<Line>) returns (r: Result<Order, Error>)
      modifies this
      ensures old(Valid()) ==> Valid()
      ensures catalog == CatalogAfter(ReserveAll(old(catalog), request))
      ensures ReserveAll(old(catalog), request).Rejected? ==>
        && r == Failure(ReserveAll(old(catalog), request).error)
        && orders == old(orders)
      ensures ReserveAll(old(catalog), request).Accepted? ==>
        var p := ReserveAll(old(catalog), request).progress;
        && r.Success?
        && r.value == Order(|old(orders)| + 1, p.snapshots, Value(Priced(old(catalog), request)),
                            None, PlacedStatus)
        && (old(DenseIds(orders)) ==> r.value.id !in old(orders))
        && orders == old(orders)[r.value.id := r.value]
    {
      var premiumCount := 0;
      var orderValue := 0.0;
      var products: seq<Product> := [];
      ghost var priced: seq<PricedLine> := [];
      var i := 0;
      while i < |request|
        invariant 0 <= i <= |request|
        invariant ReserveAll(old(catalog), request[..i]).Accepted?
        invariant ReserveAll(old(catalog), request[..i]).progress.catalog == catalog
        invariant ReserveAll(old(catalog), request[..i]).progress.snapshots == products
        invariant ReserveAll(old(catalog), request[..i]).progress.priced == priced
        invariant orderValue == Value(priced) && premiumCount == PremiumCount(priced)
        invariant orders == old(orders)
      {
        var line := request[i];
        if line.id !in catalog {
          r := Failure(ProductNotFound);
          RejectedAtLine(old(catalog), request, i);
          AvailabilityStaysNonNegative(old(catalog), request);
          return;
        }
        var product := catalog[line.id];
        if line.quantity > product.availability || line.quantity > MaxLineQuantity {
          r := Failure(QuantityNotAvailable);
          RejectedAtLine(old(catalog), request, i);
          AvailabilityStaysNonNegative(old(catalog), request);
          return;
        }
        var line' := PricedLine(line.quantity, product.price, product.category == PremiumCategory);
        var updated := Rebuilt(product, line.quantity);
        AcceptedStep(old(catalog), request, i, catalog, products, priced);
        orderValue := orderValue + Cost(line');
        if product.category == PremiumCategory {
          premiumCount := premiumCount + 1;
          if premiumCount >= PremiumThreshold {
            orderValue := orderValue * Discount;
          }
        }
        ValueAppend(priced, line');
        PremiumCountAppend(priced, line');
        priced := priced + [line'];
        catalog := catalog[line.id := updated];
        products := products + [catalog[line.id]];
        i := i + 1;
      }
      assert request[..i] == request;
      AvailabilityStaysNonNegative(old(catalog), request);
      PricedFromCatalog(old(catalog), request);
      var id := |orders| + 1;
      var order := Order(id, products, orderValue, None, PlacedStatus);
      if DenseIds(orders) {
        NextIdIsFresh(orders, order);
      }
      orders := orders[id := order];
      r := Success(order);
    }

    /** Looks the order up by ID; an unknown ID changes nothing. Otherwise sets
        the status, stamping the dispatch date with `now` when the status is
        "Dispatched", and writes the order back under its own ID (the looked-up
        ID whenever the order IDs are dense). */
    method UpdateStatus(id: int, status: string, now: Instant) returns (r: Result<Order, Error>)
      modifies this
      ensures old(Valid()) ==> Valid()
      ensures catalog == old(catalog)
      ensures id !in old(orders) ==> r == Failure(OrderNotFound) && orders == old(orders)
      ensures id in old(orders) ==>
        && r == Success(WithStatus(old(orders)[id], status, now))
        && orders == old(orders)[old(orders)[id].id := r.value]
    {
      if id !in orders {
        r := Failure(OrderNotFound);
        return;
      }
      var order := orders[id];
      if status == DispatchedStatus {
        order := order.(dispatchDate := Some(now));
      }
      order := order.(status := status);
      orders := orders[order.id := order];
      r := Success(order);
    }
  }
}
