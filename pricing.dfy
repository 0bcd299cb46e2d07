/**
 * The pricing rule of the order handler: a left-to-right running total of
 * quantity times price, where every Premium line at which the number of
 * Premium lines seen so far is at least three multiplies the WHOLE running
 * total by 9/10. The multiplier therefore compounds, and lines that are not
 * Premium never apply it.
 *
 * The functions below are stated over the first `n` lines of a sequence, so
 * that a longer request only extends them. Prices are exact reals: the
 * floating-point rounding of the original is not modelled.
 */
module Pricing {

  /** The factor applied to the running total by a discount-triggering line. */
  const Discount: real := 0.9

  /** The number of Premium lines from which the discount applies. */
  const PremiumThreshold: nat := 3

  /** One accepted line as the pricing rule sees it: the requested quantity,
      the unit price of the product and whether its category is Premium. */
  datatype PricedLine = PricedLine(quantity: int, price: real, premium: bool)

  function Cost(l: PricedLine): real
  {
    l.quantity as real * l.price
  }

  /** Number of Premium lines among the first `n`. */
  function PremiumsAmong(lines: seq<PricedLine>, n: nat): (count: nat)
    requires n <= |lines|
    ensures count <= n
  {
    if n == 0 then 0 else PremiumsAmong(lines, n - 1) + (if lines[n - 1].premium then 1 else 0)
  }

  function PremiumCount(lines: seq<PricedLine>): nat
  {
    PremiumsAmong(lines, |lines|)
  }

  /** Line `j` applies the discount: it is Premium and, counting it, at least
      three Premium lines have been seen. */
  predicate Triggers(lines: seq<PricedLine>, j: nat)
    requires j < |lines|
  {
    lines[j].premium && PremiumsAmong(lines, j + 1) >= PremiumThreshold
  }

  /** The running total after the first `n` lines. */
  function RunningTotal(lines: seq<PricedLine>, n: nat): real
    requires n <= |lines|
  {
    if n == 0 then 0.0
    else
      var total := RunningTotal(lines, n - 1) + Cost(lines[n - 1]);
      if Triggers(lines, n - 1) then total * Discount else total
  }

  /** The order value: the running total after every line, in request order. */
  function Value(lines: seq<PricedLine>): real
  {
    RunningTotal(lines, |lines|)
  }

  /** The undiscounted sum of the costs of the first `n` lines. */
  function CostsAmong(lines: seq<PricedLine>, n: nat): real
    requires n <= |lines|
  {
    if n == 0 then 0.0 else CostsAmong(lines, n - 1) + Cost(lines[n - 1])
  }

  function PlainSum(lines: seq<PricedLine>): real
  {
    CostsAmong(lines, |lines|)
  }

  function Pow(x: real, n: nat): real
  {
    if n == 0 then 1.0 else x * Pow(x, n - 1)
  }

  /** 9/10 if line `j` triggers, 1 otherwise. */
  function Factor(lines: seq<PricedLine>, j: nat): real
    requires j < |lines|
  {
    if Triggers(lines, j) then Discount else 1.0
  }

  /** Number of triggering lines at positions `i` .. `n - 1`. */
  function TriggersBetween(lines: seq<PricedLine>, i: nat, n: nat): nat
    requires n <= |lines|
  {
    if n <= i then 0 else TriggersBetween(lines, i, n - 1) + (if Triggers(lines, n - 1) then 1 else 0)
  }

  /** Reference definition of the running total after `n` lines, summed over
      the first `m`: each line's cost is discounted once by every triggering
      line at or after it. */
  function Discounted(lines: seq<PricedLine>, m: nat, n: nat): real
    requires m <= n <= |lines|
  {
    if m == 0 then 0.0
    else Discounted(lines, m - 1, n) + Cost(lines[m - 1]) * Pow(Discount, TriggersBetween(lines, m - 1, n))
  }

  /** Counting over the first `n` lines does not look at any later line. */
  lemma {:induction false} PrefixStable(s: seq<PricedLine>, l: PricedLine, n: nat)
    requires n <= |s|
    ensures PremiumsAmong(s + [l], n) == PremiumsAmong(s, n)
    ensures RunningTotal(s + [l], n) == RunningTotal(s, n)
    ensures CostsAmong(s + [l], n) == CostsAmong(s, n)
  {
    if n > 0 {
      PrefixStable(s, l, n - 1);
      assert (s + [l])[n - 1] == s[n - 1];
    }
  }

  /** Appending a line adds one to the Premium count exactly when it is Premium. */
  lemma PremiumCountAppend(lines: seq<PricedLine>, l: PricedLine)
    ensures PremiumCount(lines + [l]) == PremiumCount(lines) + (if l.premium then 1 else 0)
  {
    PrefixStable(lines, l, |lines|);
  }

  /** The running-total step: a new line adds its cost, and the sum so far is
      multiplied by 9/10 exactly when the line is Premium and at least two
      Premium lines came before it. A non-Premium line never discounts. */
  lemma ValueAppend(lines: seq<PricedLine>, l: PricedLine)
    ensures Value(lines + [l]) ==
            if l.premium && PremiumCount(lines) + 1 >= PremiumThreshold
            then (Value(lines) + Cost(l)) * Discount
            else Value(lines) + Cost(l)
  {
    PrefixStable(lines, l, |lines|);
    assert (lines + [l])[|lines|] == l;
  }

  lemma {:induction false} NoDiscountAmong(lines: seq<PricedLine>, n: nat)
    requires n <= |lines|
    requires PremiumsAmong(lines, n) < PremiumThreshold
    ensures RunningTotal(lines, n) == CostsAmong(lines, n)
  {
    if n > 0 {
      NoDiscountAmong(lines, n - 1);
    }
  }

  /** With fewer than three Premium lines there is no discount at all. */
  lemma NoDiscountBelowThreshold(lines: seq<PricedLine>)
    requires PremiumCount(lines) < PremiumThreshold
    ensures Value(lines) == PlainSum(lines)
  {
    NoDiscountAmong(lines, |lines|);
  }

  /** With no negative quantity and no negative price, the running total
      after any number of lines is non-negative. */
  lemma {:induction false} RunningTotalNonNegative(lines: seq<PricedLine>, n: nat)
    requires n <= |lines|
    requires forall k :: 0 <= k < |lines| ==> lines[k].quantity >= 0 && lines[k].price >= 0.0
    ensures RunningTotal(lines, n) >= 0.0
  {
    if n > 0 {
      RunningTotalNonNegative(lines, n - 1);
      var l := lines[n - 1];
      assert Cost(l) >= 0.0 by {
        assert l.quantity as real >= 0.0;
      }
    }
  }

  /** The order value is non-negative when every quantity and price is. */
  lemma ValueNonNegative(lines: seq<PricedLine>)
    requires forall k :: 0 <= k < |lines| ==> lines[k].quantity >= 0 && lines[k].price >= 0.0
    ensures Value(lines) >= 0.0
  {
    RunningTotalNonNegative(lines, |lines|);
  }

  lemma {:induction false} PowAdd(x: real, a: nat, b: nat)
    ensures Pow(x, a + b) == Pow(x, a) * Pow(x, b)
  {
    if a > 0 {
      PowAdd(x, a - 1, b);
      assert Pow(x, a + b) == x * Pow(x, a - 1 + b);
    }
  }

  lemma Regroup(f: real, a: real, c: real, p: real)
    ensures f * a + c * (p * f) == f * (a + c * p)
  {
  }

  /** Taking line `n` into account scales every earlier contribution by its factor. */
  lemma {:induction false} DiscountedExtend(lines: seq<PricedLine>, m: nat, n: nat)
    requires m <= n < |lines|
    ensures Discounted(lines, m, n + 1) == Factor(lines, n) * Discounted(lines, m, n)
  {
    if m > 0 {
      var f := Factor(lines, n);
      var k := TriggersBetween(lines, m - 1, n);
      DiscountedExtend(lines, m - 1, n);
      assert Pow(Discount, TriggersBetween(lines, m - 1, n + 1)) == Pow(Discount, k) * f by {
        PowAdd(Discount, k, if Triggers(lines, n) then 1 else 0);
      }
      Regroup(f, Discounted(lines, m - 1, n), Cost(lines[m - 1]), Pow(Discount, k));
    }
  }

  lemma {:induction false} RunningTotalClosedForm(lines: seq<PricedLine>, n: nat)
    requires n <= |lines|
    ensures RunningTotal(lines, n) == Discounted(lines, n, n)
  {
    if n > 0 {
      var f := Factor(lines, n - 1);
      RunningTotalClosedForm(lines, n - 1);
      DiscountedExtend(lines, n - 1, n - 1);
      assert TriggersBetween(lines, n - 1, n) == if Triggers(lines, n - 1) then 1 else 0;
      assert Pow(Discount, TriggersBetween(lines, n - 1, n)) == f;
      calc {
        Discounted(lines, n, n);
        Discounted(lines, n - 1, n) + Cost(lines[n - 1]) * f;
        f * RunningTotal(lines, n - 1) + Cost(lines[n - 1]) * f;
        (RunningTotal(lines, n - 1) + Cost(lines[n - 1])) * f;
      }
    }
  }

  /** The running total equals the reference definition: the value is the sum of
      all line costs, each multiplied by 9/10 once per triggering line at or
      after it. */
  lemma ValueClosedForm(lines: seq<PricedLine>)
    ensures Value(lines) == Discounted(lines, |lines|, |lines|)
  {
    RunningTotalClosedForm(lines, |lines|);
  }
}
