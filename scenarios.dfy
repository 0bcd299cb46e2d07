/**
 * Worked requests against the seeded catalog, each stated as a fact about the
 * reservation walk and the pricing rule.
 */
module Scenarios {
  import opened Pricing
  import opened Catalog
  import opened Reservation

  /** Three Premium lines: the value of the first two is their plain sum, and
      the third discounts it. */
  lemma PremiumSpan(three: seq<PricedLine>)
    requires |three| == 3 && three[0].premium && three[1].premium && three[2].premium
    ensures Value(three) == (Cost(three[0]) + Cost(three[1]) + Cost(three[2])) * Discount
    ensures PremiumCount(three) == 3
  {
    var a, b, c := three[0], three[1], three[2];
    var none: seq<PricedLine> := [];
    var one := none + [a];
    var two := one + [b];
    assert two + [c] == three;
    ValueAppend(none, a);
    PremiumCountAppend(none, a);
    ValueAppend(one, b);
    PremiumCountAppend(one, b);
    ValueAppend(two, c);
    PremiumCountAppend(two, c);
  }

  /** Five units of product 1 (price 100, 10 available) cost 500 and leave 5. */
  lemma FiveOfProductOne()
    ensures var o := ReserveAll(SeedCatalog(), [Line(1, 5)]);
            && o.Accepted?
            && Value(o.progress.priced) == 500.0
            && o.progress.catalog[1].availability == 5
  {
  }

  /** Eleven units are refused by the per-line cap even where 30 are in stock. */
  lemma CapRefusesEleven()
    ensures ReserveAll(SeedCatalog(), [Line(3, 11)]) == Rejected(SeedCatalog(), QuantityNotAvailable, 0)
  {
  }

  /** An unknown product is refused before anything is reserved. */
  lemma UnknownProductRefused()
    ensures ReserveAll(SeedCatalog(), [Line(7, 1)]) == Rejected(SeedCatalog(), ProductNotFound, 0)
  {
  }

  /** Quantities are not checked to be positive: three units less than none
      of product 2 (price 150, 20 available) pass the checks, raise its
      availability to 23 and give an order value of -450. */
  lemma NegativeQuantityAccepted()
    ensures var o := ReserveAll(SeedCatalog(), [Line(2, -3)]);
            && o.Accepted?
            && Value(o.progress.priced) == -450.0
            && o.progress.catalog[2].availability == 23
  {
  }

  /** Three Premium lines priced 100, 100 and 90: the third line discounts the
      whole total of 290 to 261. */
  lemma ThirdPremiumLineDiscounts()
    ensures var o := ReserveAll(SeedCatalog(), [Line(1, 1), Line(4, 1), Line(5, 1)]);
            && o.Accepted? && Value(o.progress.priced) == 261.0
            && o.progress.priced == [PricedLine(1, 100.0, true), PricedLine(1, 100.0, true),
                                     PricedLine(1, 90.0, true)]
            && o.progress.catalog[2] == SeedCatalog()[2]
            && o.progress.catalog[4].availability == 49
  {
    var c := SeedCatalog();
    var none: seq<Line> := [];
    var one := none + [Line(1, 1)];
    var two := one + [Line(4, 1)];
    var three := two + [Line(5, 1)];
    ReserveAllAppend(c, none, Line(1, 1));
    ReserveAllAppend(c, one, Line(4, 1));
    ReserveAllAppend(c, two, Line(5, 1));
    assert three == [Line(1, 1), Line(4, 1), Line(5, 1)];
    PremiumSpan(ReserveAll(c, three).progress.priced);
  }

  /** A fourth Premium line discounts again, compounding: (261 + 100) * 9/10. */
  lemma FourthPremiumLineCompounds()
    ensures var o := ReserveAll(SeedCatalog(), [Line(1, 1), Line(4, 1), Line(5, 1), Line(4, 1)]);
            o.Accepted? && Value(o.progress.priced) == 324.9
  {
    var c := SeedCatalog();
    var three := [Line(1, 1), Line(4, 1), Line(5, 1)];
    ThirdPremiumLineDiscounts();
    PremiumSpan(ReserveAll(c, three).progress.priced);
    ReserveAllAppend(c, three, Line(4, 1));
    assert three + [Line(4, 1)] == [Line(1, 1), Line(4, 1), Line(5, 1), Line(4, 1)];
    ValueAppend(ReserveAll(c, three).progress.priced, PricedLine(1, 100.0, true));
  }

  /** A Regular line after the threshold is added without any discount. */
  lemma RegularLineAfterThresholdUndiscounted()
    ensures var o := ReserveAll(SeedCatalog(), [Line(1, 1), Line(4, 1), Line(5, 1), Line(2, 1)]);
            o.Accepted? && Value(o.progress.priced) == 411.0
  {
    var c := SeedCatalog();
    var three := [Line(1, 1), Line(4, 1), Line(5, 1)];
    ThirdPremiumLineDiscounts();
    ReserveAllAppend(c, three, Line(2, 1));
    assert three + [Line(2, 1)] == [Line(1, 1), Line(4, 1), Line(5, 1), Line(2, 1)];
    ValueAppend(ReserveAll(c, three).progress.priced, PricedLine(1, 150.0, false));
  }

  /** Two lines of 6 units of product 1 (10 available): the second is refused,
      and the first line's decrement stays, leaving 4. */
  lemma DuplicateLinesOnSeed()
    ensures var o := ReserveAll(SeedCatalog(), [Line(1, 6), Line(1, 6)]);
            && o.Rejected? && o.error == QuantityNotAvailable && o.at == 1
            && o.catalog[1].availability == 4
  {
    DuplicateLinesCompete(SeedCatalog(), 1, 6, 6);
  }
}
