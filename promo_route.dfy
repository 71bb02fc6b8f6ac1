/**
 * POST /api/promo/validate: look a code up in the promo store, reject it for
 * the first failing condition (invalid or expired, usage limit, minimum
 * amount) and otherwise quote the discount. Nothing is written back.
 */
module PromoRoute {
  import opened Common
  import opened Text
  import opened PromoModel

  /** Why a code was turned down; `MinimumNotMet` carries the minimum quoted in the message. */
  datatype Rejection = InvalidOrExpired | UsageLimitExceeded | MinimumNotMet(minAmount: real)

  /** The quote returned for an accepted code. */
  datatype Quote = Quote(
    code: string,
    discountType: DiscountType,
    discountValue: real,
    discountAmount: real,
    finalAmount: real)

  datatype Validation = Accepted(quote: Quote) | Rejected(reason: Rejection)

  /** The lookup filter: upper-cased code, active, and `validFrom <= now <= validUntil`. */
  predicate Redeemable(p: PromoCode, code: string, now: Timestamp)
  {
    p.code == ToUpper(code) && p.active && p.validFrom <= now <= p.validUntil
  }

  /** The record `findOne` returns: the first that passes the filter. */
  function FindPromo(store: seq<PromoCode>, code: string, now: Timestamp): (r: Option<nat>)
    ensures r.Some? ==> r.value < |store| && Redeemable(store[r.value], code, now)
    ensures r.None? ==> forall i :: 0 <= i < |store| ==> !Redeemable(store[i], code, now)
  {
    FirstWhere(store, p => Redeemable(p, code, now))
  }

  /** A usage limit applies only when it is set and non-zero (0 means unlimited). */
  predicate UsageExhausted(p: PromoCode)
  {
    p.usageLimit.Some? && p.usageLimit.value != 0 && p.usedCount >= p.usageLimit.value
  }

  /** The discount a record gives on `totalAmount`: a capped percentage, or the fixed value unclamped. */
  function Discount(p: PromoCode, totalAmount: real): (d: real)
    ensures p.discountType == Fixed ==> d == p.discountValue
    ensures p.discountType == Percentage && (p.maxDiscount.None? || p.maxDiscount.value == 0.0) ==>
      d == totalAmount * (p.discountValue / 100.0)
    ensures p.discountType == Percentage && p.maxDiscount.Some? && p.maxDiscount.value != 0.0 ==>
      d <= p.maxDiscount.value && d <= totalAmount * (p.discountValue / 100.0)
      && (d == p.maxDiscount.value || d == totalAmount * (p.discountValue / 100.0))
  {
    match p.discountType
    case Percentage =>
      var raw := totalAmount * (p.discountValue / 100.0);
      if p.maxDiscount.Some? && p.maxDiscount.value != 0.0 && raw > p.maxDiscount.value then p.maxDiscount.value else raw
    case Fixed => p.discountValue
  }

  /** A percentage of at most 100 on a non-negative total, capped by a non-negative maximum, never exceeds the total. */
  lemma PercentageWithinTotal(p: PromoCode, totalAmount: real)
    requires p.discountType == Percentage && 0.0 <= p.discountValue <= 100.0 && totalAmount >= 0.0
    requires p.maxDiscount.Some? ==> p.maxDiscount.value >= 0.0
    ensures 0.0 <= Discount(p, totalAmount) <= totalAmount
  {
    var f := p.discountValue / 100.0;
    assert 0.0 <= f <= 1.0;
    assert totalAmount * f + totalAmount * (1.0 - f) == totalAmount;
    RealProductNonNegative(totalAmount, 1.0 - f);
    RealProductNonNegative(totalAmount, f);
  }

  lemma RealProductNonNegative(a: real, b: real)
    requires a >= 0.0 && b >= 0.0
    ensures a * b >= 0.0
  {
  }

  /**
   * The validation endpoint. Rejections come in a fixed order: no redeemable record,
   * then an exhausted usage limit, then a total strictly below the minimum; an accepted
   * code is quoted with the stored (upper-case) code and `finalAmount = total - discount`.
   */
  function Validate(store: seq<PromoCode>, code: string, totalAmount: real, now: Timestamp): (r: Validation)
    ensures r == Rejected(InvalidOrExpired) <==> FindPromo(store, code, now).None?
    ensures r == Rejected(UsageLimitExceeded) <==>
      FindPromo(store, code, now).Some? && UsageExhausted(store[FindPromo(store, code, now).value])
    ensures (r.Rejected? && r.reason.MinimumNotMet?) <==>
      && FindPromo(store, code, now).Some?
      && !UsageExhausted(store[FindPromo(store, code, now).value])
      && totalAmount < store[FindPromo(store, code, now).value].minAmount
    ensures r.Rejected? && r.reason.MinimumNotMet? ==>
      r.reason.minAmount == store[FindPromo(store, code, now).value].minAmount
    ensures r.Accepted? ==>
      var p := store[FindPromo(store, code, now).value];
      && r.quote.code == p.code == ToUpper(code)
      && r.quote.discountType == p.discountType && r.quote.discountValue == p.discountValue
      && r.quote.discountAmount == Discount(p, totalAmount)
      && r.quote.finalAmount == totalAmount - r.quote.discountAmount
      && totalAmount >= p.minAmount && p.active && p.validFrom <= now <= p.validUntil
  {
    match FindPromo(store, code, now)
    case None => Rejected(InvalidOrExpired)
    case Some(i) =>
      var p := store[i];
      if UsageExhausted(p) then Rejected(UsageLimitExceeded)
      else if totalAmount < p.minAmount then Rejected(MinimumNotMet(p.minAmount))
      else
        var discount := Discount(p, totalAmount);
        Accepted(Quote(p.code, p.discountType, p.discountValue, discount, totalAmount - discount))
  }

  /** The lookup is case-insensitive: a code and its upper-cased form validate identically. */
  lemma {:induction false} ValidateIgnoresCase(store: seq<PromoCode>, code: string, totalAmount: real, now: Timestamp)
    ensures Validate(store, code, totalAmount, now) == Validate(store, ToUpper(code), totalAmount, now)
  {
    ToUpperIdempotent(code);
    assert forall p :: Redeemable(p, code, now) <==> Redeemable(p, ToUpper(code), now);
    FirstWhereSame(store, code, ToUpper(code), now);
  }

  lemma {:induction false} FirstWhereSame(store: seq<PromoCode>, a: string, b: string, now: Timestamp)
    requires forall p :: Redeemable(p, a, now) <==> Redeemable(p, b, now)
    ensures FindPromo(store, a, now) == FindPromo(store, b, now)
  {
  }

  /**
   * Under the unique index on `code`, the one record stored under the upper-cased code decides
   * the lookup alone: it is found when it is redeemable now, and otherwise nothing is.
   */
  lemma UniqueCodeDecides(store: seq<PromoCode>, code: string, now: Timestamp, i: nat)
    requires CodesUnique(store)
    requires i < |store| && store[i].code == ToUpper(code)
    ensures FindPromo(store, code, now) == if Redeemable(store[i], code, now) then Some(i) else None
  {
    var r := FindPromo(store, code, now);
    if r.Some? {
      var k := r.value;
      assert store[k].code == store[i].code;
    }
  }

  /** A usage limit of 0 or none never rejects, whatever the used count. */
  lemma ZeroLimitIsUnlimited(store: seq<PromoCode>, code: string, totalAmount: real, now: Timestamp)
    requires FindPromo(store, code, now).Some?
    requires store[FindPromo(store, code, now).value].usageLimit in {None, Some(0)}
    ensures Validate(store, code, totalAmount, now) != Rejected(UsageLimitExceeded)
  {
  }

  /** A total equal to the minimum is accepted by the minimum check (the comparison is strict). */
  lemma MinimumIsInclusive(store: seq<PromoCode>, code: string, now: Timestamp)
    requires FindPromo(store, code, now).Some?
    requires !UsageExhausted(store[FindPromo(store, code, now).value])
    ensures Validate(store, code, store[FindPromo(store, code, now).value].minAmount, now).Accepted?
  {
  }

  /** A 10% code with no cap on a 200 subtotal, entered in lower case: 20 off, 180 to pay. */
  lemma TenPercentExample()
    ensures
      var save10 := PromoCode("SAVE10", Percentage, 10.0, 0.0, None, 0, 100, None, 0, true);
      Validate([save10], "save10", 200.0, 50) == Accepted(Quote("SAVE10", Percentage, 10.0, 20.0, 180.0))
  {
    var save10 := PromoCode("SAVE10", Percentage, 10.0, 0.0, None, 0, 100, None, 0, true);
    assert ToUpper("save10") == "SAVE10";
    assert Redeemable(save10, "save10", 50);
  }

  /** A code past its `validUntil` is rejected as invalid or expired. */
  lemma ExpiredExample()
    ensures
      var expired := PromoCode("EXPIRED1", Fixed, 50.0, 0.0, None, 0, 100, None, 0, true);
      Validate([expired], "EXPIRED1", 500.0, 101) == Rejected(InvalidOrExpired)
  {
    var expired := PromoCode("EXPIRED1", Fixed, 50.0, 0.0, None, 0, 100, None, 0, true);
    assert !Redeemable(expired, "EXPIRED1", 101);
  }
}
