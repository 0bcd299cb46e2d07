/**
 * The product catalog and the per-line reservation walk of the order handler
 * (main.go, placeOrderHandler). Requested lines are taken in order; each is
 * looked up, checked against the CURRENT availability and the per-line cap,
 * and its product's availability is decremented at once. A rejected line ends
 * the walk, and the decrements already made for earlier lines stay in place.
 */
module Catalog {
  import opened Wrappers
  import opened Pricing

  /** A catalog entry. `quantity` only carries a requested quantity on the wire;
      the entries the handler writes back leave it at zero. */
  datatype Product = Product(id: int, name: string, category: string, price: real,
                             availability: int, quantity: int)

  /** One requested line of an order: a product ID and a quantity. */
  datatype Line = Line(id: int, quantity: int)

  datatype Error = ProductNotFound | QuantityNotAvailable | OrderNotFound

  /** The largest quantity a single line may request. */
  const MaxLineQuantity: int := 10

  const PremiumCategory: string := "Premium"

  /** The catalog the service starts with. */
  function SeedCatalog(): map<int, Product>
  {
    map[1 := Product(1, "Product1", "Premium", 100.0, 10, 0),
        2 := Product(2, "Product2", "Regular", 150.0, 20, 0),
        3 := Product(3, "Product3", "Budget", 200.0, 30, 0),
        4 := Product(4, "Product4", "Premium", 100.0, 50, 0),
        5 := Product(5, "Product5", "Premium", 90.0, 25, 0),
        6 := Product(6, "Product6", "Budget", 200.0, 15, 0)]
  }

  ghost predicate NonNegative(catalog: map<int, Product>)
  {
    forall id :: id in catalog ==> catalog[id].availability >= 0
  }

  /** The line names a known product and asks for no more than is available
      now and no more than the cap. */
  predicate Passes(catalog: map<int, Product>, line: Line)
  {
    line.id in catalog
    && line.quantity <= catalog[line.id].availability
    && line.quantity <= MaxLineQuantity
  }

  /** ID, name, category and price agree. */
  predicate SameListing(a: Product, b: Product)
  {
    a.id == b.id && a.name == b.name && a.category == b.category && a.price == b.price
  }

  /** `after` is `before` with the entry under `line.id` rebuilt with its
      availability lowered by exactly the line's quantity, and nothing else changed. */
  ghost predicate Decremented(before: map<int, Product>, after: map<int, Product>, line: Line)
  {
    && line.id in before
    && after.Keys == before.Keys
    && SameListing(after[line.id], before[line.id])
    && after[line.id].availability == before[line.id].availability - line.quantity
    && after[line.id].quantity == 0
    && forall id :: id in before && id != line.id ==> after[id] == before[id]
  }

  /** The state of the walk after some accepted lines: the catalog as it now
      is, the post-decrement snapshots in request order, and the lines as the
      pricing rule sees them. */
  datatype Progress = Progress(catalog: map<int, Product>, snapshots: seq<Product>,
                               priced: seq<PricedLine>)

  /** How a walk ends: every line accepted, or rejected at line `at` with the
      catalog as the earlier lines left it. */
  datatype Outcome =
    | Accepted(progress: Progress)
    | Rejected(catalog: map<int, Product>, error: Error, at: nat)

  function CatalogAfter(o: Outcome): map<int, Product>
  {
    match o
    case Accepted(p) => p.catalog
    case Rejected(c, _, _) => c
  }

  /** The entry written back for a reserved line: the same listing with the
      availability lowered by `quantity` and the quantity field left at zero. */
  function Rebuilt(product: Product, quantity: int): Product
  {
    Product(product.id, product.name, product.category, product.price,
            product.availability - quantity, 0)
  }

  /** Checks and reserves one line. */
  function Reserve(p: Progress, line: Line): Result<Progress, Error>
  {
    if line.id !in p.catalog then Failure(ProductNotFound)
    else
      var product := p.catalog[line.id];
      if line.quantity > product.availability || line.quantity > MaxLineQuantity then
        Failure(QuantityNotAvailable)
      else
        var catalog' := p.catalog[line.id := Rebuilt(product, line.quantity)];
        Success(Progress(catalog', p.snapshots + [catalog'[line.id]],
                         p.priced + [PricedLine(line.quantity, product.price,
                                                product.category == PremiumCategory)]))
  }

  /** One line passes exactly when its product is known and its quantity is
      within the current availability and the cap; a failure says which check
      failed; a success rebuilds only that product's entry, at an availability
      lower by exactly the quantity, and records the rebuilt entry and the
      line's price and category. */
  lemma ReserveSpec(p: Progress, line: Line)
    ensures var r := Reserve(p, line);
      && (r.Success? <==> Passes(p.catalog, line))
      && (line.id !in p.catalog ==> r == Failure(ProductNotFound))
      && (line.id in p.catalog && !Passes(p.catalog, line) ==> r == Failure(QuantityNotAvailable))
      && (r.Success? ==>
          && Decremented(p.catalog, r.value.catalog, line)
          && r.value.snapshots == p.snapshots + [r.value.catalog[line.id]]
          && r.value.priced == p.priced + [PricedLine(line.quantity, p.catalog[line.id].price,
                                                      p.catalog[line.id].category == PremiumCategory)])
  {
  }

  /** The walk over all requested lines, in order, from `catalog`. */
  function ReserveAll(catalog: map<int, Product>, lines: seq<Line>): (o: Outcome)
    ensures CatalogAfter(o).Keys == catalog.Keys
    ensures o.Rejected? ==> o.at < |lines|
    ensures o.Accepted? ==>
      && |o.progress.snapshots| == |lines|
      && |o.progress.priced| == |lines|
      && forall k :: 0 <= k < |lines| ==> lines[k].id in catalog
  {
    if lines == [] then Accepted(Progress(catalog, [], []))
    else
      var n := |lines| - 1;
      match ReserveAll(catalog, lines[..n])
      case Rejected(c, e, at) => Rejected(c, e, at)
      case Accepted(p) =>
        match Reserve(p, lines[n])
        case Failure(e) => Rejected(p.catalog, e, n)
        case Success(p') => Accepted(p')
  }

  /** The lines as the pricing rule sees them, with prices and categories read
      from `catalog`. */
  function Priced(catalog: map<int, Product>, lines: seq<Line>): seq<PricedLine>
    requires forall k :: 0 <= k < |lines| ==> lines[k].id in catalog
  {
    seq(|lines|, k requires 0 <= k < |lines| =>
      PricedLine(lines[k].quantity, catalog[lines[k].id].price,
                 catalog[lines[k].id].category == PremiumCategory))
  }

  /** Line `k` is reached with every earlier line accepted, and passes the
      checks against the availability those lines left. */
  predicate Admits(catalog: map<int, Product>, lines: seq<Line>, k: nat)
    requires k < |lines|
  {
    var o := ReserveAll(catalog, lines[..k]);
    o.Accepted? && Passes(o.progress.catalog, lines[k])
  }
}
