/** What the pricing rules mean, told apart from how they are computed (src/domain/sales/pricing.ts, observe.ts,
    conflicts.ts). */
module SaleRules {
  import opened Prelude
  import opened SalePricing

  /** The whole number nearest to n / d, the larger of two. */
  predicate Nearest(n: int, d: int, r: int)
    requires d > 0
  {
    2 * (r * d) - d <= 2 * n < 2 * (r * d) + d
  }

  lemma NearestIsOne(n: int, d: int, r: int, s: int)
    requires d > 0 && Nearest(n, d, r) && Nearest(n, d, s)
    ensures r == s
  {
    if r < s {
      StepsApart(r, s, d);
    } else if s < r {
      StepsApart(s, r, d);
    }
  }

  lemma StepsApart(r: int, s: int, d: int)
    requires d > 0 && r < s
    ensures r * d + d <= s * d
  {
    var more := s - r - 1;
    assert s * d == r * d + d + more * d;
  }

  lemma RoundsToNearest(n: int, d: int, r: int)
    requires d > 0
    ensures RoundHalfUp(n, d) == r <==> Nearest(n, d, r)
  {
    var q, twice := RoundHalfUp(n, d), 2 * d;
    var x := 2 * n + d;
    assert x == twice * (x / twice) + x % twice && 0 <= x % twice < twice;
    assert twice * q == 2 * (q * d);
    assert Nearest(n, d, q);
    if Nearest(n, d, r) {
      NearestIsOne(n, d, q, r);
    }
  }

  /** The largest multiple of step, less offset, that is at most the price; a price below the first such stays. */
  predicate EndsBelow(minor: int, step: int, offset: int, r: int)
    requires step > 0
  {
    if minor < step - offset then r == minor else r <= minor < r + step && (r + offset) % step == 0
  }

  /** The multiple a division cuts a number down to. */
  lemma CutDown(x: int, step: int)
    requires step > 0
    ensures var f := x / step * step; f <= x < f + step && f % step == 0 && (f < step <==> x < step)
  {
    var k := x / step;
    assert x == step * k + x % step && k * step == step * k;
    MultipleOf(k, step);
    if k < 1 {
      if k < 0 { StepsApart(k, 0, step); }
    } else if k > 1 {
      StepsApart(1, k, step);
    }
  }

  lemma EndingIsBelow(minor: int, step: int, offset: int, r: int)
    requires step > 0
    ensures EndingBelow(minor, step, offset) == r <==> EndsBelow(minor, step, offset, r)
  {
    var f := (minor + offset) / step * step;
    CutDown(minor + offset, step);
    if minor >= step - offset && EndsBelow(minor, step, offset, r) {
      OneMultiple(r + offset, f, minor + offset, step);
    }
  }

  lemma MultipleOf(k: int, step: int)
    requires step > 0
    ensures (k * step) % step == 0
  {
    var x := k * step;
    assert x == step * (x / step) + x % step && 0 <= x % step < step;
    var q := x / step;
    if q < k { StepsApart(q, k, step); } else if k < q { StepsApart(k, q, step); }
  }

  /** Only one multiple lies within a step below a number. */
  lemma OneMultiple(a: int, b: int, x: int, step: int)
    requires step > 0 && a % step == 0 && b % step == 0 && a <= x < a + step && b <= x < b + step
    ensures a == b
  {
    var i, j := a / step, b / step;
    assert a == step * i && b == step * j;
    assert step * i == i * step && step * j == j * step;
    if i < j { StepsApart(i, j, step); } else if j < i { StepsApart(j, i, step); }
  }

  /** A price point of a rounding. */
  predicate Rounded(minor: int, rounding: Rounding, r: int) {
    match rounding
    case NoRounding => r == minor
    case NearestWhole => r % UNIT == 0 && 2 * r - UNIT <= 2 * minor < 2 * r + UNIT
    case Ending99 => EndsBelow(minor, 100, 1, r)
    case Ending9 => EndsBelow(minor, 1000, 100, r)
    case Ending99And99 => EndsBelow(minor, 10_000, 1, r)
    case Increment(step) =>
      if step.None? || step.value <= 0 then r == minor
      else r % step.value == 0 && 2 * r - step.value <= 2 * minor < 2 * r + step.value
  }

  lemma NearestMultiple(minor: int, step: int, r: int)
    requires step > 0
    ensures RoundHalfUp(minor, step) * step == r <==> r % step == 0 && 2 * r - step <= 2 * minor < 2 * r + step
  {
    var q := RoundHalfUp(minor, step);
    RoundsToNearest(minor, step, q);
    MultipleOf(q, step);
    if r % step == 0 && 2 * r - step <= 2 * minor < 2 * r + step {
      var k := r / step;
      assert r == step * k == k * step;
      NearestIsOne(minor, step, q, k);
    }
  }

  /** Every mode of rounding gives its price point and no other. */
  lemma RoundsExactly(minor: int, rounding: Rounding, r: int)
    ensures RoundPrice(minor, rounding) == r <==> Rounded(minor, rounding, r)
  {
    match rounding
    case NoRounding =>
    case NearestWhole => NearestMultiple(minor, UNIT, r);
    case Ending99 => EndingIsBelow(minor, 100, 1, r);
    case Ending9 => EndingIsBelow(minor, 1000, 100, r);
    case Ending99And99 => EndingIsBelow(minor, 10_000, 1, r);
    case Increment(step) =>
      if step.Some? && step.value > 0 {
        NearestMultiple(minor, step.value, r);
      }
  }

  /** What a discount leaves of a price, before rounding. */
  predicate Leaves(base: int, discount: Discount, left: int) {
    match discount
    case Percentage(bp) => Nearest(base * bp, 10_000, base - left)
    case FixedAmount(amount) => base == left + amount
    case FixedPrice(fixed) => left == fixed
  }

  /** A sale price: the price point of what the discount leaves, or of nothing if that is less. */
  ghost predicate Strikes(base: int, discount: Discount, rounding: Rounding, price: int) {
    exists left :: Leaves(base, discount, left) && Rounded(Max(0, left), rounding, price)
  }

  lemma RoundedIsNotNegative(minor: nat, rounding: Rounding, r: int)
    requires Rounded(minor, rounding, r)
    ensures r >= 0
  {
    if rounding.Increment? && rounding.step.Some? && rounding.step.value > 0 && r < 0 {
      var step, k := rounding.step.value, r / rounding.step.value;
      assert r == step * k == k * step;
      StepsApart(k, 0, step);
    }
  }

  lemma StrikesExactly(base: int, discount: Discount, rounding: Rounding, price: int)
    ensures SalePriceFor(base, discount, rounding) == price <==> Strikes(base, discount, rounding, price)
  {
    var left := base - ReductionFor(base, discount);
    LeavesOne(base, discount, left);
    StruckFrom(base, discount, rounding);
    if Strikes(base, discount, rounding, price) {
      var l :| Leaves(base, discount, l) && Rounded(Max(0, l), rounding, price);
      LeavesOne(base, discount, l);
      RoundsExactly(Max(0, left), rounding, price);
    }
  }

  lemma StruckFrom(base: int, discount: Discount, rounding: Rounding)
    ensures var left := Max(0, base - ReductionFor(base, discount));
            Rounded(left, rounding, SalePriceFor(base, discount, rounding))
                && SalePriceFor(base, discount, rounding) == RoundPrice(left, rounding)
  {
    var left := Max(0, base - ReductionFor(base, discount));
    RoundsExactly(left, rounding, RoundPrice(left, rounding));
    RoundedIsNotNegative(left, rounding, RoundPrice(left, rounding));
  }

  lemma LeavesOne(base: int, discount: Discount, left: int)
    ensures base - ReductionFor(base, discount) == left <==> Leaves(base, discount, left)
  {
    if discount.Percentage? {
      RoundsToNearest(base * discount.bp, 10_000, base - left);
    }
  }

  /** The named endings never come to more than what the discount leaves. */
  lemma EndingsRoundDown(minor: int, rounding: Rounding)
    requires rounding.Ending99? || rounding.Ending9? || rounding.Ending99And99?
    ensures RoundPrice(minor, rounding) <= minor
  {
    RoundsExactly(minor, rounding, RoundPrice(minor, rounding));
  }

  /** The full price a customer sees: the compare-at of a variant on sale, or else its price. */
  function FullPrice(live: Pair): int {
    if live.compareAt.Some? && live.compareAt.value > live.price then live.compareAt.value else live.price
  }

  /** What a discount is taken off. */
  function DiscountedPrice(live: Pair, policy: SalePolicy): int {
    if policy.DiscountSellingPrice? then live.price else FullPrice(live)
  }

  predicate WorthWriting(live: Pair, policy: SalePolicy, price: int) {
    && 0 < price < FullPrice(live)
    && (FullPrice(live) > live.price ==>
          match policy
          case SkipOnSale => false
          case DiscountCompareAt => price < live.price
          case _ => true)
  }

  function WhyNot(live: Pair, policy: SalePolicy, price: int): SkipReason {
    var already := FullPrice(live) > live.price;
    if already && policy.SkipOnSale? then AlreadyOnSale
    else if already && policy.DiscountCompareAt? && price >= live.price then WouldRaisePrice
    else if price >= FullPrice(live) then NoDiscount
    else ZeroPrice
  }

  /** A decision over a price: written exactly when it is worth it, as this sale over that original, and otherwise for
      this reason. */
  predicate Decided(d: Decision, live: Pair, policy: SalePolicy, price: int) {
    && d.original == live
    && (d.Apply? <==> WorthWriting(live, policy, price))
    && (d.Apply? ==> d.base == DiscountedPrice(live, policy) && d.sale == Pair(price, Some(FullPrice(live))))
    && (d.Skip? ==> d.reason == WhyNot(live, policy, price))
  }

  lemma DecidedOver(live: Pair, policy: SalePolicy, discount: Discount, rounding: Rounding)
    ensures Decided(DecideVariantPricing(live, policy, discount, rounding), live, policy,
                    SalePriceFor(DiscountedPrice(live, policy), discount, rounding))
  {
    if !IsOnSale(live) {
      DecidedFrom(live, live.price, live.price, discount, rounding);
    } else {
      DecidedFrom(live, if policy.DiscountSellingPrice? then live.price else live.compareAt.value, live.compareAt.value,
                  discount, rounding);
    }
  }

  lemma DecidedFrom(live: Pair, base: int, full: int, discount: Discount, rounding: Rounding)
    ensures var d, price := PriceFrom(live, base, full, discount, rounding), SalePriceFor(base, discount, rounding);
            && d.original == live && (d.Apply? <==> 0 < price < full)
            && (d.Apply? ==> d.base == base && d.sale == Pair(price, Some(full)))
            && (d.Skip? ==> d.reason == if price >= full then NoDiscount else ZeroPrice)
  {}

  /** The sale struck for a variant is applied exactly when its policy does not leave it alone, and the price is above
      nothing, below the full price and, for DiscountCompareAt over a sale, below the price it would replace. It is
      then sold at that price, struck against the full one. */
  lemma DecidesExactly(live: Pair, policy: SalePolicy, discount: Discount, rounding: Rounding, price: int)
    requires Strikes(DiscountedPrice(live, policy), discount, rounding, price)
    ensures Decided(DecideVariantPricing(live, policy, discount, rounding), live, policy, price)
  {
    StrikesExactly(DiscountedPrice(live, policy), discount, rounding, price);
    DecidedOver(live, policy, discount, rounding);
  }

  /* Seeing other people's prices. */

  /** The price somebody else's pair stands for: its compare-at, if that was moved and is above the price, or else its
      price. */
  function BaseOf(live: Pair, sale: Pair): int {
    if live.compareAt != sale.compareAt then FullPrice(live) else live.price
  }

  lemma ClassifiesExactly(sale: Pair, original: Pair, live: Pair)
    ensures var seen := ClassifyObservation(sale, original, live);
            && (seen.AsExpected? <==> live == sale)
            && (seen.AsOriginal? <==> live == original && live != sale)
            && (seen.External? ==> seen.newBase == BaseOf(live, sale))
  {}

  /* Conflicts. */

  /** What a strategy compares, if it compares anything. */
  function Merit(strategy: Strategy, c: Contender): int {
    match strategy
    case Prevent => 0
    case Priority => c.priority
    case LargestDiscount => c.discountBp
    case Newest => c.createdAt
  }

  /** The challenger wins exactly with the larger merit, so that of two campaigns never both win; the holder keeps the
      variant by the larger, and a tie of discounts; any other tie, and Prevent, refuse. */
  lemma ConflictsExactly(strategy: Strategy, a: Contender, b: Contender)
    ensures ResolveConflict(strategy, a, b).Challenger? <==> Merit(strategy, a) > Merit(strategy, b)
    ensures ResolveConflict(strategy, a, b).Refuse? <==>
            strategy.Prevent? || (!strategy.LargestDiscount? && Merit(strategy, a) == Merit(strategy, b))
    ensures ResolveConflict(strategy, a, b).Challenger? ==> !ResolveConflict(strategy, b, a).Challenger?
  {}

  /** The reduction of a campaign, in hundredths of a per cent of its base. */
  lemma DiscountsExactly(base: int, sale: int, bp: int)
    ensures EffectiveDiscountBp(base, sale) == bp <==>
            if base <= 0 then bp == 0 else Nearest((base - sale) * 10_000, base, bp)
  {
    if base > 0 {
      RoundsToNearest((base - sale) * 10_000, base, bp);
    }
  }
}
