/**
 * Properties of the reservation walk: which requests are accepted, what a
 * rejection leaves behind, how availability is accounted for, and what the
 * accepted lines record.
 */
module Reservation {
  import opened Wrappers
  import opened Pricing
  import opened Catalog

  /** Total quantity requested for product `id` over `lines`. */
  function Requested(lines: seq<Line>, id: int): int
  {
    if lines == [] then 0
    else Requested(lines[..|lines| - 1], id)
         + (if lines[|lines| - 1].id == id then lines[|lines| - 1].quantity else 0)
  }

  /** Some line of `lines` names product `id`. */
  predicate Mentioned(lines: seq<Line>, id: int)
  {
    exists k :: 0 <= k < |lines| && lines[k].id == id
  }

  /** What `lines`, all accepted, do to the entry of product `id`: its listing
      is kept, its availability drops by their total quantity, and an entry no
      line names is untouched. */
  ghost predicate Reduced(before: map<int, Product>, after: map<int, Product>,
                          lines: seq<Line>, id: int)
  {
    && id in before && id in after
    && SameListing(after[id], before[id])
    && after[id].availability == before[id].availability - Requested(lines, id)
    && (Mentioned(lines, id) ==> after[id].quantity == 0)
    && (!Mentioned(lines, id) ==> after[id] == before[id])
  }

  /** Once a prefix is rejected, the whole request is rejected the same way. */
  lemma {:induction false} RejectionSticks(c: map<int, Product>, lines: seq<Line>, j: nat)
    requires j <= |lines|
    requires ReserveAll(c, lines[..j]).Rejected?
    ensures ReserveAll(c, lines) == ReserveAll(c, lines[..j])
    decreases |lines|
  {
    if j < |lines| {
      var n := |lines| - 1;
      assert lines[..n][..j] == lines[..j];
      RejectionSticks(c, lines[..n], j);
    } else {
      assert lines[..j] == lines;
    }
  }

  /** The walk over one more line: the next line is reserved against the
      progress so far. */
  lemma ReserveAllStep(c: map<int, Product>, lines: seq<Line>, i: nat)
    requires i < |lines|
    requires ReserveAll(c, lines[..i]).Accepted?
    ensures var p := ReserveAll(c, lines[..i]).progress;
            ReserveAll(c, lines[..i + 1]) ==
              match Reserve(p, lines[i])
              case Failure(e) => Rejected(p.catalog, e, i)
              case Success(p') => Accepted(p')
  {
    assert lines[..i + 1][..i] == lines[..i];
  }

  /** The walk over a request with one more line at the end. */
  lemma ReserveAllAppend(c: map<int, Product>, lines: seq<Line>, l: Line)
    ensures ReserveAll(c, lines + [l]) ==
              match ReserveAll(c, lines)
              case Rejected(cat, e, at) => Rejected(cat, e, at)
              case Accepted(p) =>
                match Reserve(p, l)
                case Failure(e) => Rejected(p.catalog, e, |lines|)
                case Success(p') => Accepted(p')
  {
    assert (lines + [l])[..|lines|] == lines;
  }

  /** A line that passes its checks after the earlier lines were accepted is
      accepted too, with its product's entry rebuilt at the lower availability
      and that entry and the line's price and category recorded. */
  lemma AcceptedStep(c: map<int, Product>, lines: seq<Line>, i: nat,
                     catalog: map<int, Product>, snapshots: seq<Product>, priced: seq<PricedLine>)
    requires i < |lines|
    requires ReserveAll(c, lines[..i]).Accepted?
    requires ReserveAll(c, lines[..i]).progress.catalog == catalog
    requires ReserveAll(c, lines[..i]).progress.snapshots == snapshots
    requires ReserveAll(c, lines[..i]).progress.priced == priced
    requires Passes(catalog, lines[i])
    ensures var product := catalog[lines[i].id];
            var updated := Rebuilt(product, lines[i].quantity);
            && ReserveAll(c, lines[..i + 1]).Accepted?
            && ReserveAll(c, lines[..i + 1]).progress.catalog == catalog[lines[i].id := updated]
            && ReserveAll(c, lines[..i + 1]).progress.snapshots == snapshots + [updated]
            && ReserveAll(c, lines[..i + 1]).progress.priced ==
               priced + [PricedLine(lines[i].quantity, product.price, product.category == PremiumCategory)]
  {
    ReserveAllStep(c, lines, i);
  }

  /** A line that fails its checks after the earlier lines were accepted
      rejects the whole request there, with the catalog those lines left. */
  lemma RejectedAtLine(c: map<int, Product>, lines: seq<Line>, i: nat)
    requires i < |lines|
    requires ReserveAll(c, lines[..i]).Accepted?
    requires !Passes(ReserveAll(c, lines[..i]).progress.catalog, lines[i])
    ensures var cat := ReserveAll(c, lines[..i]).progress.catalog;
            ReserveAll(c, lines) ==
              Rejected(cat, if lines[i].id in cat then QuantityNotAvailable else ProductNotFound, i)
  {
    ReserveAllStep(c, lines, i);
    RejectionSticks(c, lines, i + 1);
  }

  /** A request is accepted exactly when every line, in order, passes the
      checks against the availability the earlier lines left. */
  lemma {:induction false} AcceptedIff(c: map<int, Product>, lines: seq<Line>)
    ensures ReserveAll(c, lines).Accepted? <==>
            forall k :: 0 <= k < |lines| ==> Admits(c, lines, k)
  {
    if lines != [] {
      var n := |lines| - 1;
      var s := lines[..n];
      assert lines[..n] == s;
      AcceptedIff(c, s);
      forall k | 0 <= k < n
        ensures Admits(c, lines, k) == Admits(c, s, k)
      {
        assert lines[..k] == s[..k];
      }
      assert ReserveAll(c, lines).Accepted? <==> Admits(c, lines, n);
    }
  }

  /** A rejection happens at the first line that fails: every earlier line was
      accepted, the catalog keeps the decrements they made, and the error names
      why that line failed. */
  lemma {:induction false} RejectedAtFirstFailure(c: map<int, Product>, lines: seq<Line>)
    requires ReserveAll(c, lines).Rejected?
    ensures var o := ReserveAll(c, lines);
            var before := ReserveAll(c, lines[..o.at]);
            && before.Accepted?
            && before.progress.catalog == o.catalog
            && !Passes(o.catalog, lines[o.at])
            && o.error == (if lines[o.at].id in o.catalog then QuantityNotAvailable else ProductNotFound)
  {
    var n := |lines| - 1;
    var s := lines[..n];
    if ReserveAll(c, s).Rejected? {
      RejectedAtFirstFailure(c, s);
      var at := ReserveAll(c, s).at;
      assert s[..at] == lines[..at];
    }
  }

  /** Availability never goes negative, whether the request succeeds or not. */
  lemma {:induction false} AvailabilityStaysNonNegative(c: map<int, Product>, lines: seq<Line>)
    ensures NonNegative(c) ==> NonNegative(CatalogAfter(ReserveAll(c, lines)))
  {
    if lines != [] {
      AvailabilityStaysNonNegative(c, lines[..|lines| - 1]);
    }
  }

  lemma RequestedAppend(lines: seq<Line>, l: Line, id: int)
    ensures Requested(lines + [l], id) == Requested(lines, id) + (if l.id == id then l.quantity else 0)
    ensures Mentioned(lines + [l], id) <==> Mentioned(lines, id) || l.id == id
  {
    var t := lines + [l];
    assert t[..|lines|] == lines;
    if Mentioned(t, id) && l.id != id {
      var k :| 0 <= k < |t| && t[k].id == id;
      assert lines[k].id == id;
    }
    if Mentioned(lines, id) {
      var k :| 0 <= k < |lines| && lines[k].id == id;
      assert t[k].id == id;
    }
  }

  /** A fully accepted request lowers each product's availability by the total
      it requested and changes nothing else about the catalog. */
  lemma {:induction false} AcceptedAccounting(c: map<int, Product>, lines: seq<Line>, id: int)
    requires id in c
    requires ReserveAll(c, lines).Accepted?
    ensures Reduced(c, ReserveAll(c, lines).progress.catalog, lines, id)
  {
    if lines == [] {
      assert !Mentioned(lines, id);
    } else {
      var n := |lines| - 1;
      var s := lines[..n];
      assert lines == s + [lines[n]];
      AcceptedAccounting(c, s, id);
      RequestedAppend(s, lines[n], id);
    }
  }

  /** The catalog after any request: availability is lowered by exactly the
      quantities of the lines that were accepted before the walk ended, so a
      rejected request keeps the decrements of the lines before the failing one. */
  lemma StockAccounting(c: map<int, Product>, lines: seq<Line>, id: int)
    requires id in c
    ensures var o := ReserveAll(c, lines);
            if o.Accepted? then Reduced(c, o.progress.catalog, lines, id)
            else o.at < |lines| && Reduced(c, o.catalog, lines[..o.at], id)
  {
    var o := ReserveAll(c, lines);
    if o.Accepted? {
      AcceptedAccounting(c, lines, id);
    } else {
      RejectedAtFirstFailure(c, lines);
      AcceptedAccounting(c, lines[..o.at], id);
    }
  }

  /** The priced lines of an accepted request are its quantities with the
      prices and categories of the catalog it started from. */
  lemma {:induction false} PricedFromCatalog(c: map<int, Product>, lines: seq<Line>)
    requires ReserveAll(c, lines).Accepted?
    ensures ReserveAll(c, lines).progress.priced == Priced(c, lines)
  {
    if lines != [] {
      var n := |lines| - 1;
      var s := lines[..n];
      PricedFromCatalog(c, s);
      AcceptedAccounting(c, s, lines[n].id);
      assert ReserveAll(c, lines).progress.priced == Priced(c, s) + [Priced(c, lines)[n]];
    }
  }

  /** The snapshots of an accepted request are, in request order, the entries
      of the requested products just after each line's decrement. */
  lemma {:induction false} SnapshotsInRequestOrder(c: map<int, Product>, lines: seq<Line>, k: nat)
    requires ReserveAll(c, lines).Accepted?
    requires k < |lines|
    ensures var before := ReserveAll(c, lines[..k]);
            && before.Accepted?
            && lines[k].id in before.progress.catalog
            && ReserveAll(c, lines).progress.snapshots[k] ==
               Rebuilt(before.progress.catalog[lines[k].id], lines[k].quantity)
  {
    var n := |lines| - 1;
    var s := lines[..n];
    assert ReserveAll(c, s).Accepted?;
    var p := ReserveAll(c, s).progress;
    ReserveSpec(p, lines[n]);
    if k < n {
      SnapshotsInRequestOrder(c, s, k);
      assert s[..k] == lines[..k];
    } else {
      assert s == lines[..k];
    }
  }

  /** Two lines for the same product compete for its availability: each alone
      would pass, but together they ask for more than there is, so the second
      is rejected while the first line's decrement stays. */
  lemma DuplicateLinesCompete(c: map<int, Product>, id: int, q1: int, q2: int)
    requires Passes(c, Line(id, q1)) && Passes(c, Line(id, q2))
    requires q1 + q2 > c[id].availability
    ensures ReserveAll(c, [Line(id, q1)]).Accepted?
    ensures var o := ReserveAll(c, [Line(id, q1), Line(id, q2)]);
            && o == Rejected(ReserveAll(c, [Line(id, q1)]).progress.catalog, QuantityNotAvailable, 1)
            && o.catalog[id].availability == c[id].availability - q1
  {
    assert [Line(id, q1), Line(id, q2)][..1] == [Line(id, q1)];
  }

  /** Of two requests in a row for the last unit of a product, the first
      succeeds and the second is rejected. */
  lemma LastUnitGoesOnce(c: map<int, Product>, id: int)
    requires id in c && c[id].availability == 1
    ensures ReserveAll(c, [Line(id, 1)]).Accepted?
    ensures ReserveAll(ReserveAll(c, [Line(id, 1)]).progress.catalog, [Line(id, 1)])
            == Rejected(ReserveAll(c, [Line(id, 1)]).progress.catalog, QuantityNotAvailable, 0)
  {
  }
}
