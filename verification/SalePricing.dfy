/** What a campaign charges for a variant, how it recognises its own writes, and which of two
    campaigns wins (src/domain/sales/pricing.ts, observe.ts, conflicts.ts). Money is integer minor
    units; a missing compare-at price is None. */
module SalePricing {
  import opened Prelude

  datatype Pair = Pair(price: int, compareAt: Option<int>)

  datatype Discount = Percentage(bp: int) | FixedAmount(amount: int) | FixedPrice(fixed: int)

  datatype Rounding = NoRounding | NearestWhole | Ending99 | Ending9 | Ending99And99 | Increment(step: Option<int>)

  datatype SalePolicy = SkipOnSale | DiscountSellingPrice | DiscountCompareAt | Override

  const UNIT := 100

  /** Half-up rounding of n / d on integers; Dafny's division floors here because 2 * d > 0. */
  function RoundHalfUp(n: int, d: int): int
    requires d > 0
  {
    (2 * n + d) / (2 * d)
  }

  function ReductionFor(base: int, discount: Discount): int {
    match discount
    case Percentage(bp) => RoundHalfUp(base * bp, 10_000)
    case FixedAmount(amount) => amount
    case FixedPrice(fixed) => base - fixed
  }

  function EndingBelow(minor: int, step: int, offset: int): int
    requires step > 0
  {
    var candidate := (minor + offset) / step * step - offset;
    if candidate < step - offset then minor else candidate
  }

  function RoundPrice(minor: int, rounding: Rounding): int {
    match rounding
    case NoRounding => minor
    case NearestWhole => RoundHalfUp(minor, UNIT) * UNIT
    case Ending99 => EndingBelow(minor, UNIT, 1)
    case Ending9 => EndingBelow(minor, 10 * UNIT, UNIT)
    case Ending99And99 => EndingBelow(minor, 100 * UNIT, 1)
    case Increment(step) =>
      var increment := if step.Some? then step.value else 0;
      if increment <= 0 then minor else RoundHalfUp(minor, increment) * increment
  }

  function SalePriceFor(base: int, discount: Discount, rounding: Rounding): int {
    Max(0, RoundPrice(Max(0, base - ReductionFor(base, discount)), rounding))
  }

  predicate IsOnSale(pair: Pair) {
    pair.compareAt.Some? && pair.compareAt.value > pair.price
  }

  datatype SkipReason = AlreadyOnSale | WouldRaisePrice | NoDiscount | ZeroPrice

  datatype Decision =
    | Apply(original: Pair, base: int, sale: Pair)
    | Skip(reason: SkipReason, original: Pair)

  function DecideVariantPricing(live: Pair, policy: SalePolicy, discount: Discount, rounding: Rounding): Decision {
    if IsOnSale(live) then
      var was := live.compareAt.value;
      match policy
      case SkipOnSale => Skip(AlreadyOnSale, live)
      case DiscountSellingPrice => PriceFrom(live, live.price, was, discount, rounding)
      case DiscountCompareAt =>
        if SalePriceFor(was, discount, rounding) >= live.price then Skip(WouldRaisePrice, live)
        else PriceFrom(live, was, was, discount, rounding)
      case Override => PriceFrom(live, was, was, discount, rounding)
    else
      PriceFrom(live, live.price, live.price, discount, rounding)
  }

  function PriceFrom(live: Pair, base: int, compareAt: int, discount: Discount, rounding: Rounding): Decision {
    var sale := SalePriceFor(base, discount, rounding);
    if sale >= compareAt then Skip(NoDiscount, live)
    else if sale <= 0 then Skip(ZeroPrice, live)
    else Apply(live, base, Pair(sale, Some(compareAt)))
  }

  function EffectiveDiscountBp(base: int, sale: int): int {
    if base <= 0 then 0 else RoundHalfUp((base - sale) * 10_000, base)
  }

  /** Whatever the campaign's settings, an applied sale records the pair it saw as the original, and
      what it writes reads as a sale to a customer. It lowers the price a customer was paying when the
      variant was not on sale, and under DiscountCompareAt always. */
  lemma AppliedSaleIsASale(live: Pair, policy: SalePolicy, discount: Discount, rounding: Rounding)
    requires DecideVariantPricing(live, policy, discount, rounding).Apply?
    ensures var d := DecideVariantPricing(live, policy, discount, rounding);
            && d.original == live
            && IsOnSale(d.sale) && d.sale.price > 0
            && (!IsOnSale(live) || policy == DiscountCompareAt ==> d.sale.price < live.price)
  {
    var was := if live.compareAt.Some? then live.compareAt.value else live.price;
    if !IsOnSale(live) {
      PricedFrom(live, live.price, live.price, discount, rounding);
    } else if policy == DiscountSellingPrice {
      PricedFrom(live, live.price, was, discount, rounding);
    } else {
      PricedFrom(live, was, was, discount, rounding);
    }
  }

  /** A price that is written is above nothing and below the price it is struck against. */
  lemma PricedFrom(live: Pair, base: int, compareAt: int, discount: Discount, rounding: Rounding)
    requires PriceFrom(live, base, compareAt, discount, rounding).Apply?
    ensures var d := PriceFrom(live, base, compareAt, discount, rounding);
            && d.original == live && d.sale == Pair(SalePriceFor(base, discount, rounding), Some(compareAt))
            && 0 < d.sale.price < compareAt
  {}

  /** The price a policy strikes over a variant already on sale. */
  function StruckPrice(live: Pair, policy: SalePolicy, discount: Discount, rounding: Rounding): int
    requires IsOnSale(live)
  {
    SalePriceFor(if policy.DiscountSellingPrice? then live.price else live.compareAt.value, discount, rounding)
  }

  /** An applied sale raises the price a customer was paying exactly when the variant was on sale already and the
      policy, without DiscountCompareAt's guard, strikes a price above the one it finds; and leaves it where it was
      exactly when it strikes that very price. */
  lemma AppliedSaleRaisesThePriceIff(live: Pair, policy: SalePolicy, discount: Discount, rounding: Rounding)
    requires DecideVariantPricing(live, policy, discount, rounding).Apply?
    ensures var d := DecideVariantPricing(live, policy, discount, rounding);
            var unguarded := IsOnSale(live) && (policy.Override? || policy.DiscountSellingPrice?);
            && (d.sale.price > live.price <==> unguarded && StruckPrice(live, policy, discount, rounding) > live.price)
            && (d.sale.price == live.price <==>
                unguarded && StruckPrice(live, policy, discount, rounding) == live.price)
  {
    AppliedSaleIsASale(live, policy, discount, rounding);
    if IsOnSale(live) {
      var base := if policy.DiscountSellingPrice? then live.price else live.compareAt.value;
      PricedFrom(live, base, live.compareAt.value, discount, rounding);
    }
  }

  /** Both do: 80.00 over a variant selling at 50.00 (Override), and
      10.00 over one selling at 9.60 (DiscountSellingPrice, rounded to the nearest whole). */
  lemma AppliedSaleCanRaiseThePrice()
    ensures DecideVariantPricing(Pair(5000, Some(10000)), Override, Percentage(2000), NoRounding)
              == Apply(Pair(5000, Some(10000)), 10000, Pair(8000, Some(10000)))
    ensures DecideVariantPricing(Pair(960, Some(1200)), DiscountSellingPrice, Percentage(100), NearestWhole)
              == Apply(Pair(960, Some(1200)), 960, Pair(1000, Some(1200)))
  {}

  /* Telling the campaign's own writes apart from everybody else's. */

  datatype Observation = AsExpected | AsOriginal | External(newBase: int)

  function ClassifyObservation(sale: Pair, original: Pair, live: Pair): Observation {
    if live == sale then AsExpected
    else if live == original then AsOriginal
    else
      var compareAtMoved := live.compareAt.Some? && live.compareAt != sale.compareAt;
      External(if compareAtMoved && IsOnSale(live) then live.compareAt.value else live.price)
  }

  /* Two campaigns, one variant. */

  datatype Strategy = Prevent | Priority | LargestDiscount | Newest

  datatype Contender = Contender(priority: int, createdAt: int, discountBp: int)

  datatype ConflictOutcome = Challenger | Holder | Refuse

  function ResolveConflict(strategy: Strategy, challenger: Contender, holder: Contender): ConflictOutcome {
    match strategy
    case Prevent => Refuse
    case Priority =>
      if challenger.priority == holder.priority then Refuse
      else if challenger.priority > holder.priority then Challenger else Holder
    case LargestDiscount =>
      if challenger.discountBp > holder.discountBp then Challenger else Holder
    case Newest =>
      if challenger.createdAt == holder.createdAt then Refuse
      else if challenger.createdAt > holder.createdAt then Challenger else Holder
  }
}
