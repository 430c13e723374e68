/**
 * The checkout's price computation (src/pages/Checkout.tsx): base price,
 * promo discount and the total actually charged. Money is exact; the
 * two-decimal rounding of the display is not part of the computation.
 */
module Pricing {
  import opened Opt
  import opened Records

  /** The three amounts shown in the booking summary. */
  datatype Quote = Quote(base: real, discount: real, total: real)

  /** Price per person times the number of guests. */
  function BasePrice(price: real, guests: int): real {
    price * guests as real
  }

  /**
   * The discount of the applied promo: a percentage of the base when its type
   * is exactly "percentage", otherwise its value as a fixed amount (not capped
   * at the base); no promo gives no discount.
   */
  function Discount(base: real, promo: Option<PromoCode>): (d: real)
    ensures promo.None? ==> d == 0.0
    ensures promo.Some? && promo.value.discountType == "percentage" ==> d * 100.0 == base * promo.value.discountValue
    ensures promo.Some? && promo.value.discountType != "percentage" ==> d == promo.value.discountValue
  {
    match promo
    case None => 0.0
    case Some(p) => if p.discountType == "percentage" then base * p.discountValue / 100.0 else p.discountValue
  }

  /** `Math.max(0, base - discount)`: never negative, and the discounted base whenever that is not negative. */
  function Total(base: real, discount: real): (t: real)
    ensures t >= 0.0 && t >= base - discount
    ensures t == 0.0 || t == base - discount
  {
    if base - discount > 0.0 then base - discount else 0.0
  }

  /**
   * The quote for a price per person, a guest count and the applied promo, if
   * any: the discount is the promo's discount of the base, and the total is
   * the larger of zero and the discounted base.
   */
  function PriceQuote(price: real, guests: int, promo: Option<PromoCode>): (q: Quote)
    ensures q.base == price * guests as real
    ensures q.discount == Discount(q.base, promo)
    ensures q.total >= 0.0 && q.total >= q.base - q.discount
    ensures q.total == 0.0 || q.total == q.base - q.discount
  {
    var base := BasePrice(price, guests);
    var discount := Discount(base, promo);
    Quote(base, discount, Total(base, discount))
  }

  /** Without a promo the customer pays price times guests, no more and no less. */
  lemma NoPromoPaysBase(price: real, guests: int)
    requires price >= 0.0 && guests >= 0
    ensures PriceQuote(price, guests, None).discount == 0.0
    ensures PriceQuote(price, guests, None).total == price * guests as real
  {
  }

  /** A non-negative discount never raises the price above the base. */
  lemma TotalAtMostBase(base: real, discount: real)
    requires base >= 0.0 && discount >= 0.0
    ensures Total(base, discount) <= base
  {
  }

  /** A discount at least as large as the base makes the booking free rather than negative. */
  lemma DiscountBeyondBaseIsFree(base: real, discount: real)
    requires discount >= base
    ensures Total(base, discount) == 0.0
  {
  }

  /** A percentage promo between 0 and 100 percent charges the remaining share of the base. */
  lemma {:induction false} PercentagePromoTotal(price: real, guests: int, p: PromoCode)
    requires p.discountType == "percentage" && 0.0 <= p.discountValue <= 100.0
    requires price >= 0.0 && guests >= 0
    ensures PriceQuote(price, guests, Some(p)).total * 100.0 == price * guests as real * (100.0 - p.discountValue)
  {
    var base := price * guests as real;
    assert base >= 0.0;
    var d := Discount(base, Some(p));
    assert d * 100.0 == base * p.discountValue;
    assert base * p.discountValue <= base * 100.0;
    assert d <= base;
  }

  /** A fixed promo larger than the base is used in full as the discount, and the total is zero. */
  lemma FixedPromoBeyondBase(price: real, guests: int, p: PromoCode)
    requires p.discountType != "percentage"
    requires p.discountValue > price * guests as real
    ensures PriceQuote(price, guests, Some(p)).discount == p.discountValue
    ensures PriceQuote(price, guests, Some(p)).total == 0.0
  {
  }
}
