/** The price-alert form (components/PriceAlertModal.tsx): its initial
    condition and target, the validation that decides whether an alert is
    emitted, and the gating of the remove action. The target text is held as
    what `parseFloat` makes of it (`None` for `NaN`). */
module PriceAlertForm {
  import opened Wrappers
  import opened Types

  /** `existingAlert?.condition || 'above'`. */
  function InitialCondition(existing: Option<PriceAlert>): (c: Condition)
    ensures existing.Some? ==> c == existing.value.condition
    ensures existing.None? ==> c == Above
  {
    match existing
    case Some(alert) => alert.condition
    case None => Above
  }

  /** `existingAlert?.targetPrice.toString() || crop.price.toFixed(2)`, as the
      number the text parses back to. */
  function InitialTarget(existing: Option<PriceAlert>, crop: CropListing): (t: Option<real>)
    ensures existing.Some? ==> t == Some(existing.value.targetPrice)
    ensures existing.None? ==> t == Some(crop.price)
  {
    match existing
    case Some(alert) => Some(alert.targetPrice)
    case None => Some(crop.price)
  }

  /** `handleSubmit`: an alert for the crop, with the form's condition and
      parsed target, when the target is a number above zero; nothing
      otherwise, and no error either way. */
  function Validate(crop: CropListing, condition: Condition, target: Option<real>): (r: Option<PriceAlert>)
    ensures r.Some? <==> target.Some? && target.value > 0.0
    ensures r.Some? ==> r.value.cropId == crop.id && r.value.cropName == crop.name
    ensures r.Some? ==> r.value.condition == condition && r.value.targetPrice == target.value
  {
    if target.Some? && target.value > 0.0 then
      Some(PriceAlert(crop.id, crop.name, target.value, condition))
    else
      None
  }

  /** The "Remove Alert" button: shown only when an alert exists, and it
      passes the crop's id. */
  function RemoveAction(existing: Option<PriceAlert>, crop: CropListing): (r: Option<string>)
    ensures r.Some? <==> existing.Some?
    ensures r.Some? ==> r.value == crop.id
  {
    if existing.Some? then Some(crop.id) else None
  }

  /** Re-submitting an emitted alert unchanged emits it again: validation
      is a fixed point on what it emits. */
  lemma ResubmitSameAlert(crop: CropListing, condition: Condition, target: Option<real>)
    requires Validate(crop, condition, target).Some?
    ensures var a := Validate(crop, condition, target).value;
      Validate(crop, a.condition, Some(a.targetPrice)) == Some(a)
  {
  }

  /** The modal's form state. */
  class AlertModal {
    const crop: CropListing
    const existing: Option<PriceAlert>
    var condition: Condition
    var target: Option<real>

    constructor (crop: CropListing, existing: Option<PriceAlert>)
      ensures this.crop == crop && this.existing == existing
      ensures condition == InitialCondition(existing)
      ensures target == InitialTarget(existing, crop)
    {
      this.crop := crop;
      this.existing := existing;
      condition := InitialCondition(existing);
      target := InitialTarget(existing, crop);
    }

    /** The Above / Below buttons. */
    method SetCondition(c: Condition)
      modifies this
      ensures condition == c && target == old(target)
    {
      condition := c;
    }

    /** The target input, given what `parseFloat` makes of the typed text. */
    method SetTarget(parsed: Option<real>)
      modifies this
      ensures target == parsed && condition == old(condition)
    {
      target := parsed;
    }

    /** `handleSubmit`: at most one alert handed to `onSetAlert`; the form
        state is left as it was. */
    method Submit() returns (emitted: Option<PriceAlert>)
      ensures emitted.Some? <==> target.Some? && target.value > 0.0
      ensures emitted.Some? ==>
        emitted.value == PriceAlert(crop.id, crop.name, target.value, condition)
    {
      emitted := Validate(crop, condition, target);
    }
  }
}
