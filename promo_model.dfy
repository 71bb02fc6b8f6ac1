/**
 * The PromoCode document: a code stored in upper case, a discount type and
 * value, an optional cap and usage limit, a validity window and an active flag.
 */
module PromoModel {
  import opened Common
  import opened Text

  datatype DiscountType = Percentage | Fixed

  datatype PromoCode = PromoCode(
    code: string,
    discountType: DiscountType,
    discountValue: real,
    minAmount: real,
    maxDiscount: Option<real>,
    validFrom: Timestamp,
    validUntil: Timestamp,
    usageLimit: Option<int>,
    usedCount: int,
    active: bool)

  function DiscountTypeName(t: DiscountType): string
  {
    match t
    case Percentage => "percentage"
    case Fixed => "fixed"
  }

  /** The discount-type enum: exactly "percentage" and "fixed" are accepted. */
  function ParseDiscountType(s: string): (r: Option<DiscountType>)
    ensures r.Some? <==> s == "percentage" || s == "fixed"
    ensures r.Some? ==> DiscountTypeName(r.value) == s
  {
    if s == "percentage" then Some(Percentage)
    else if s == "fixed" then Some(Fixed)
    else None
  }

  /** Promo data as it arrives, before the schema is applied. */
  datatype PromoDraft = PromoDraft(
    code: Option<string>,
    discountType: Option<string>,
    discountValue: Option<real>,
    minAmount: Option<real>,
    maxDiscount: Option<real>,
    validFrom: Option<Timestamp>,
    validUntil: Option<Timestamp>,
    usageLimit: Option<int>,
    usedCount: Option<int>,
    active: Option<bool>)

  /** The validated paths of a PromoCode. */
  datatype PromoField = CodeField | DiscountTypeField | DiscountValueField | ValidFromField | ValidUntilField

  const AllPromoFields: set<PromoField> := {CodeField, DiscountTypeField, DiscountValueField, ValidFromField, ValidUntilField}

  /** Whether one path passes its validators (`code` is checked after the upper-case setter). */
  predicate PromoFieldOk(d: PromoDraft, f: PromoField)
  {
    match f
    case CodeField => IsPresent(d.code)
    case DiscountTypeField => d.discountType.Some? && ParseDiscountType(d.discountType.value).Some?
    case DiscountValueField => d.discountValue.Some?
    case ValidFromField => d.validFrom.Some?
    case ValidUntilField => d.validUntil.Some?
  }

  predicate PromoDraftOk(d: PromoDraft)
  {
    && IsPresent(d.code)
    && d.discountType.Some? && ParseDiscountType(d.discountType.value).Some?
    && d.discountValue.Some? && d.validFrom.Some? && d.validUntil.Some?
  }

  function PromoErrors(d: PromoDraft): (errs: set<PromoField>)
    ensures errs == {} <==> PromoDraftOk(d)
  {
    var errs := set f | f in AllPromoFields && !PromoFieldOk(d, f);
    if PromoDraftOk(d) then
      assert forall f :: f in AllPromoFields ==> PromoFieldOk(d, f);
      assert forall f :: f !in errs;
      errs
    else
      assert
        || CodeField in errs || DiscountTypeField in errs || DiscountValueField in errs
        || ValidFromField in errs || ValidUntilField in errs;
      errs
  }

  /** A promo record as the schema stores it. */
  predicate ValidPromo(p: PromoCode)
  {
    p.code != "" && IsUpperCase(p.code)
  }

  /**
   * The promo schema: code, discountType, discountValue, validFrom and validUntil are
   * required; the code is stored upper-cased; minAmount and usedCount default to 0 and
   * active to true; maxDiscount and usageLimit stay absent unless given.
   */
  function CastPromo(d: PromoDraft): (r: Result<PromoCode, set<PromoField>>)
    ensures r.Success? <==> PromoDraftOk(d)
    ensures r.Failure? ==> r.error != {} && forall f :: f in AllPromoFields ==> (f in r.error <==> !PromoFieldOk(d, f))
    ensures r.Success? ==>
      && ValidPromo(r.value)
      && r.value.code == ToUpper(d.code.value)
      && DiscountTypeName(r.value.discountType) == d.discountType.value
      && r.value.discountValue == d.discountValue.value
      && r.value.minAmount == (if d.minAmount.Some? then d.minAmount.value else 0.0)
      && r.value.maxDiscount == d.maxDiscount && r.value.usageLimit == d.usageLimit
      && r.value.validFrom == d.validFrom.value && r.value.validUntil == d.validUntil.value
      && r.value.usedCount == (if d.usedCount.Some? then d.usedCount.value else 0)
      && r.value.active == (d.active != Some(false))
  {
    if PromoDraftOk(d) then
      Success(PromoCode(
        ToUpper(d.code.value), ParseDiscountType(d.discountType.value).value, d.discountValue.value,
        if d.minAmount.Some? then d.minAmount.value else 0.0,
        d.maxDiscount, d.validFrom.value, d.validUntil.value, d.usageLimit,
        if d.usedCount.Some? then d.usedCount.value else 0,
        d.active != Some(false)))
    else
      Failure(PromoErrors(d))
  }

  /** The unique index on `code`: no two stored records share a code. */
  predicate CodesUnique(store: seq<PromoCode>)
  {
    forall i, j :: 0 <= i < j < |store| ==> store[i].code != store[j].code
  }

  /** Two drafts whose codes differ only in letter case are stored under the same code. */
  lemma CastCodeIgnoresCase(d: PromoDraft)
    requires PromoDraftOk(d)
    ensures CastPromo(d.(code := Some(ToUpper(d.code.value)))).value.code == CastPromo(d).value.code
  {
    ToUpperIdempotent(d.code.value);
  }
}
