/** The trade-offer page (pages/SubmitOfferPage.tsx): the quantity stepper and
    quantity input, the offer totals with the 1% platform fee, and the rule
    that disables submission. The offer-price and quantity texts are held as
    the outcome of parsing them (`None` for `NaN`). */
module SubmitOffer {
  import opened Wrappers

  /** The quantity the page starts with. */
  const InitialQuantity: int := 10

  /** The platform fee rate, 1%. */
  const PlatformFeeRate: real := 0.01

  datatype OfferTotals = OfferTotals(totalOfferValue: real, platformFee: real, total: real)

  /** The stepper's `Math.max(1, prev + amount)`. */
  function ClampedQuantity(prev: int, amount: int): (q: int)
    ensures q >= 1
    ensures prev + amount >= 1 ==> q == prev + amount
    ensures prev + amount < 1 ==> q == 1
  {
    if prev + amount < 1 then 1 else prev + amount
  }

  /** The quantity input's `parseInt(value) || 1`: both `NaN` and `0` are
      falsy and fall back to 1; every other integer, negative ones included,
      is kept. */
  function QuantityFromInput(parsed: Option<int>): (q: int)
    ensures parsed == None || parsed == Some(0) ==> q == 1
    ensures parsed.Some? && parsed.value != 0 ==> q == parsed.value
  {
    match parsed
    case None => 1
    case Some(n) => if n == 0 then 1 else n
  }

  /** The memoised totals: an unparseable or non-positive price gives all
      zeros; otherwise the value is quantity times price, the fee is 1% of
      it and the total is the value plus the fee. */
  function Totals(quantity: int, price: Option<real>): (t: OfferTotals)
    ensures price.None? || price.value <= 0.0 ==> t == OfferTotals(0.0, 0.0, 0.0)
    ensures price.Some? && price.value > 0.0 ==>
      && t.totalOfferValue == quantity as real * price.value
      && t.platformFee == quantity as real * price.value / 100.0
      && t.total == quantity as real * price.value * 101.0 / 100.0
  {
    if price.None? || price.value <= 0.0 then
      OfferTotals(0.0, 0.0, 0.0)
    else
      var totalOfferValue := quantity as real * price.value;
      var platformFee := totalOfferValue * PlatformFeeRate;
      OfferTotals(totalOfferValue, platformFee, totalOfferValue + platformFee)
  }

  /** The submit button's `disabled={total <= 0}`. */
  predicate SubmitDisabled(t: OfferTotals) {
    t.total <= 0.0
  }

  /** Submission is disabled exactly when the price is missing or not
      positive, or the quantity is not positive (a typed negative or zero
      quantity can reach this). */
  lemma SubmitDisabledIff(quantity: int, price: Option<real>)
    ensures SubmitDisabled(Totals(quantity, price))
        <==> price.None? || price.value <= 0.0 || quantity <= 0
  {
    if price.Some? && price.value > 0.0 {
      var p := price.value;
      if quantity <= 0 {
        assert quantity as real * p <= 0.0;
      } else {
        assert quantity as real * p > 0.0;
      }
    }
  }

  /** The worked case: the initial quantity 10 at price 100 gives a value of
      1000, a fee of 10 and a total of 1010. */
  lemma InitialQuantityAtHundred()
    ensures Totals(InitialQuantity, Some(100.0)) == OfferTotals(1000.0, 10.0, 1010.0)
  {
  }

  /** `n` presses of the same stepper button, starting from `q`. */
  function StepRepeatedly(q: int, amount: int, n: nat): (r: int)
    ensures n > 0 ==> r >= 1
  {
    if n == 0 then q else ClampedQuantity(StepRepeatedly(q, amount, n - 1), amount)
  }

  /** From a quantity of at least 1, `n` decrements give `max(1, q - n)`, so
      repeated decrements stop at 1 and stay there. */
  lemma {:induction false} RepeatedDecrementStopsAtOne(q: int, n: nat)
    requires q >= 1
    ensures StepRepeatedly(q, -1, n) == if q - n >= 1 then q - n else 1
  {
    if n > 0 {
      RepeatedDecrementStopsAtOne(q, n - 1);
    }
  }

  /** From a quantity of at least 1, `n` increments give `q + n`. */
  lemma {:induction false} RepeatedIncrementAdds(q: int, n: nat)
    requires q >= 1
    ensures StepRepeatedly(q, 1, n) == q + n
  {
    if n > 0 {
      RepeatedIncrementAdds(q, n - 1);
    }
  }

  /** The page's quantity and offer-price state. */
  class OfferForm {
    var quantity: int
    var offerPrice: Option<real>

    constructor ()
      ensures quantity == InitialQuantity && offerPrice == None
    {
      quantity := InitialQuantity;
      offerPrice := None;
    }

    /** `handleQuantityChange(amount)`: the stepper buttons pass -1 and +1. */
    method HandleQuantityChange(amount: int)
      modifies this
      ensures quantity == ClampedQuantity(old(quantity), amount)
      ensures quantity >= 1
      ensures offerPrice == old(offerPrice)
    {
      quantity := ClampedQuantity(quantity, amount);
    }

    /** The quantity input's change handler, given what `parseInt` made of
        the typed text. */
    method TypeQuantity(parsed: Option<int>)
      modifies this
      ensures quantity == QuantityFromInput(parsed)
      ensures offerPrice == old(offerPrice)
    {
      quantity := QuantityFromInput(parsed);
    }

    /** The price input's change handler, given what `parseFloat` makes of
        the typed text. */
    method TypeOfferPrice(parsed: Option<real>)
      modifies this
      ensures offerPrice == parsed
      ensures quantity == old(quantity)
    {
      offerPrice := parsed;
    }
  }
}
