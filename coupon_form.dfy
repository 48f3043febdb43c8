/**
 * The coupon form: one record of form data, replaced by a new record each time
 * an input changes, sent on submit and reset to its initial value once the
 * coupon is created. The plan select holds the chosen plan ids joined by commas.
 */
module CouponForm {
  import opened Wrappers
  import Text

  datatype DiscountType = Percentage | Fixed

  datatype CouponData = CouponData(
    code: string,
    description: string,
    discountType: DiscountType,
    discountValue: Text.Number,
    applicablePlans: seq<string>,
    maxDiscount: Option<Text.Number>,
    isActive: bool)

  /** The empty form: a percentage discount of 0, no plans, no maximum, active. */
  const Initial := CouponData([], [], Percentage, Text.Int(0), [], None, true)

  /** The names of the fields, to say which one an edit may change. */
  datatype Field = Code | Description | Kind | Value | Plans | MaxDiscount | Active

  /** `a` and `b` agree on every field other than `f`. */
  predicate AgreeExcept(a: CouponData, b: CouponData, f: Field) {
    && (f != Code ==> a.code == b.code)
    && (f != Description ==> a.description == b.description)
    && (f != Kind ==> a.discountType == b.discountType)
    && (f != Value ==> a.discountValue == b.discountValue)
    && (f != Plans ==> a.applicablePlans == b.applicablePlans)
    && (f != MaxDiscount ==> a.maxDiscount == b.maxDiscount)
    && (f != Active ==> a.isActive == b.isActive)
  }

  /** What the user did to one input, with the input's new text or choice. */
  datatype Edit =
    | TypeCode(text: string)
    | TypeDescription(text: string)
    | ChooseKind(kind: DiscountType)
    | TypeValue(text: string)
    | TypeMaxDiscount(text: string)
    | ChoosePlans(selectValue: string)

  /** The field an edit's handler writes. */
  function FieldOf(e: Edit): Field {
    match e
    case TypeCode(_) => Code
    case TypeDescription(_) => Description
    case ChooseKind(_) => Kind
    case TypeValue(_) => Value
    case TypeMaxDiscount(_) => MaxDiscount
    case ChoosePlans(_) => Plans
  }

  /** `e.target.value ? Number(e.target.value) : null`: the empty text clears the maximum. */
  function MaxDiscountOf(text: string): (r: Option<Text.Number>)
    ensures r.None? <==> text == []
    ensures r.Some? ==> r.value == Text.ToNumber(text)
  {
    if text == [] then None else Some(Text.ToNumber(text))
  }

  /** `value.split(",")`: the chosen plan ids. */
  function PlansOf(selectValue: string): (r: seq<string>)
    ensures |r| >= 1
  {
    Text.Split(selectValue, ',')
  }

  /** `applicablePlans.join(",")`: the value the select shows. */
  function SelectValue(plans: seq<string>): string {
    Text.Join(plans, [','])
  }

  /** The record after one handler ran. */
  function Apply(d: CouponData, e: Edit): CouponData {
    match e
    case TypeCode(t) => d.(code := t)
    case TypeDescription(t) => d.(description := t)
    case ChooseKind(k) => d.(discountType := k)
    case TypeValue(t) => d.(discountValue := Text.ToNumber(t))
    case TypeMaxDiscount(t) => d.(maxDiscount := MaxDiscountOf(t))
    case ChoosePlans(v) => d.(applicablePlans := PlansOf(v))
  }

  /** Each handler changes only its own field. */
  lemma ApplyChangesOnlyItsField(d: CouponData, e: Edit)
    ensures AgreeExcept(d, Apply(d, e), FieldOf(e))
  {
  }

  /** The record after a sequence of edits. */
  function ApplyAll(d: CouponData, es: seq<Edit>): CouponData
    decreases |es|
  {
    if es == [] then d else ApplyAll(Apply(d, es[0]), es[1..])
  }

  /** No input writes `isActive`, so every coupon the form sends is active. */
  lemma {:induction false} AlwaysActive(es: seq<Edit>)
    ensures ApplyAll(Initial, es).isActive
  {
    ActiveKept(Initial, es);
  }

  lemma {:induction false} ActiveKept(d: CouponData, es: seq<Edit>)
    ensures ApplyAll(d, es).isActive == d.isActive
    decreases |es|
  {
    if es != [] {
      ApplyChangesOnlyItsField(d, es[0]);
      ActiveKept(Apply(d, es[0]), es[1..]);
    }
  }

  /** An emptied maximum-discount input sets the maximum to null. */
  lemma EmptyMaxDiscountIsNull(d: CouponData)
    ensures Apply(d, TypeMaxDiscount([])).maxDiscount == None
  {
  }

  /**
   * `maxDiscount || ''`: what the maximum-discount input shows. A `NotInteger`
   * text is shown as typed, as if truthy; a text such as "0.0", whose `Number`
   * is the falsy 0, would show '' in the source, which this branch does not capture.
   */
  function MaxDiscountText(m: Option<Text.Number>): string {
    if m.None? then []
    else if m.value.Int? then (if m.value.value == 0 then [] else Text.Decimal(m.value.value))
    else m.value.text
  }

  /**
   * A nonzero integer maximum reads back from the text the input shows; a
   * maximum of 0 is falsy, shows as an empty input, and would read back as null.
   */
  lemma MaxDiscountShown(n: int)
    ensures n != 0 ==> MaxDiscountOf(MaxDiscountText(Some(Text.Int(n)))) == Some(Text.Int(n))
    ensures MaxDiscountText(Some(Text.Int(0))) == [] && MaxDiscountOf(MaxDiscountText(Some(Text.Int(0)))) == None
  {
    if n != 0 {
      Text.NumberOfDecimal(n);
      Text.DecimalAlphabet(n);
      Text.DigitsSound(if n < 0 then -n else n);
    }
  }

  /** Choosing a plan id without a comma selects exactly that plan. */
  lemma ChooseOnePlan(d: CouponData, id: string)
    requires ',' !in id
    ensures Apply(d, ChoosePlans(id)).applicablePlans == [id]
  {
    Text.SplitNoSep(id, ',');
  }

  /** The select's value, split on ',', gives back a non-empty list of comma-free ids. */
  lemma SelectValueRoundTrip(plans: seq<string>)
    requires plans != []
    requires forall i :: 0 <= i < |plans| ==> ',' !in plans[i]
    ensures PlansOf(SelectValue(plans)) == plans
  {
    Text.SplitJoin(plans, ',');
  }

  /** With no plan chosen the select's value is empty, which would split into one empty id. */
  lemma NoPlansSelectValue()
    ensures SelectValue([]) == [] && PlansOf(SelectValue([])) == [[]]
  {
  }

  /** The form's state. */
  class CouponFormState {
    var formData: CouponData

    constructor ()
      ensures formData == Initial
    {
      formData := Initial;
    }

    /** An input's change handler: `setFormData({ ...formData, field: ... })`. */
    method Handle(e: Edit)
      modifies this`formData
      ensures formData == Apply(old(formData), e)
      ensures AgreeExcept(old(formData), formData, FieldOf(e))
    {
      ApplyChangesOnlyItsField(formData, e);
      match e
      case TypeCode(t) => formData := formData.(code := t);
      case TypeDescription(t) => formData := formData.(description := t);
      case ChooseKind(k) => formData := formData.(discountType := k);
      case TypeValue(t) => formData := formData.(discountValue := Text.ToNumber(t));
      case TypeMaxDiscount(t) =>
        formData := formData.(maxDiscount := if t == [] then None else Some(Text.ToNumber(t)));
      case ChoosePlans(v) => formData := formData.(applicablePlans := Text.Split(v, ','));
    }

    /**
     * Submitting sends the current record; once the server created the coupon
     * the form is back to exactly its initial record, otherwise it is unchanged.
     */
    method Submit(created: bool) returns (payload: CouponData)
      modifies this`formData
      ensures payload == old(formData)
      ensures created ==> formData == Initial
      ensures !created ==> formData == old(formData)
    {
      payload := formData;
      if created {
        formData := CouponData([], [], Percentage, Text.Int(0), [], None, true);
      }
    }
  }
}
