/**
 * The Booking document: its schema (participant bounds, required customer
 * fields and amounts, status enum and defaults), the `pre('save')` hook that
 * assigns a "BK" reference, and the unique index that guards references.
 */
module BookingModel {
  import opened Common
  import opened Text
  import opened ExperienceModel

  /** A user id (an ObjectId). */
  type UserId = nat

  datatype BookingStatus = Pending | Confirmed | Cancelled

  function StatusName(s: BookingStatus): string
  {
    match s
    case Pending => "pending"
    case Confirmed => "confirmed"
    case Cancelled => "cancelled"
  }

  /** The status enum: exactly the three names are accepted. */
  function ParseStatus(s: string): (r: Option<BookingStatus>)
    ensures r.Some? <==> s in {"pending", "confirmed", "cancelled"}
    ensures r.Some? ==> StatusName(r.value) == s
  {
    if s == "pending" then Some(Pending)
    else if s == "confirmed" then Some(Confirmed)
    else if s == "cancelled" then Some(Cancelled)
    else None
  }

  datatype CustomerInfo = CustomerInfo(name: string, email: string, phone: Option<string>)

  /** The slot as it was when booked, copied into the booking. */
  datatype SlotSnapshot = SlotSnapshot(date: Timestamp, startTime: string, endTime: string)

  datatype Booking = Booking(
    experience: ExperienceId,
    user: UserId,
    slot: SlotSnapshot,
    participants: int,
    customerInfo: CustomerInfo,
    totalAmount: real,
    discountAmount: real,
    finalAmount: real,
    promoCode: Option<string>,
    status: BookingStatus,
    bookingReference: Option<string>)

  datatype CustomerInfoDraft = CustomerInfoDraft(name: Option<string>, email: Option<string>, phone: Option<string>)

  /** Booking data as handed to `Booking.create`, before the schema is applied. */
  datatype BookingDraft = BookingDraft(
    experience: ExperienceId,
    user: UserId,
    slot: SlotSnapshot,
    participants: Option<int>,
    customerInfo: CustomerInfoDraft,
    totalAmount: Option<real>,
    discountAmount: Option<real>,
    finalAmount: Option<real>,
    promoCode: Option<string>,
    status: Option<string>,
    bookingReference: Option<string>)

  const MinParticipants := 1
  const MaxParticipants := 10

  /** The validated paths of a Booking. */
  datatype BookingField =
    ParticipantsField | CustomerNameField | CustomerEmailField | TotalAmountField | FinalAmountField | StatusField

  const AllBookingFields: set<BookingField> :=
    {ParticipantsField, CustomerNameField, CustomerEmailField, TotalAmountField, FinalAmountField, StatusField}

  predicate ParticipantsOk(p: Option<int>)
  {
    p.Some? && MinParticipants <= p.value <= MaxParticipants
  }

  predicate StatusOk(s: Option<string>)
  {
    s.None? || ParseStatus(s.value).Some?
  }

  /** Whether one path passes its validators. */
  predicate BookingFieldOk(d: BookingDraft, f: BookingField)
  {
    match f
    case ParticipantsField => ParticipantsOk(d.participants)
    case CustomerNameField => IsPresent(d.customerInfo.name)
    case CustomerEmailField => IsPresent(d.customerInfo.email)
    case TotalAmountField => d.totalAmount.Some?
    case FinalAmountField => d.finalAmount.Some?
    case StatusField => StatusOk(d.status)
  }

  predicate BookingDraftOk(d: BookingDraft)
  {
    && ParticipantsOk(d.participants)
    && IsPresent(d.customerInfo.name) && IsPresent(d.customerInfo.email)
    && d.totalAmount.Some? && d.finalAmount.Some?
    && StatusOk(d.status)
  }

  function BookingErrors(d: BookingDraft): (errs: set<BookingField>)
    ensures errs == {} <==> BookingDraftOk(d)
  {
    var errs := set f | f in AllBookingFields && !BookingFieldOk(d, f);
    if BookingDraftOk(d) then
      assert forall f :: f in AllBookingFields ==> BookingFieldOk(d, f);
      assert forall f :: f !in errs;
      errs
    else
      assert
        || ParticipantsField in errs || CustomerNameField in errs || CustomerEmailField in errs
        || TotalAmountField in errs || FinalAmountField in errs || StatusField in errs;
      errs
  }

  /** A booking the schema would accept as stored. */
  predicate ValidBooking(b: Booking)
  {
    && MinParticipants <= b.participants <= MaxParticipants
    && b.customerInfo.name != "" && b.customerInfo.email != ""
  }

  /**
   * The booking schema: participants is required and within [1, 10]; the customer's
   * name and email, totalAmount and finalAmount are required; status is an enum that
   * defaults to confirmed; discountAmount defaults to 0.
   */
  function CastBooking(d: BookingDraft): (r: Result<Booking, set<BookingField>>)
    ensures r.Success? <==> BookingDraftOk(d)
    ensures r.Failure? ==> r.error != {} && forall f :: f in AllBookingFields ==> (f in r.error <==> !BookingFieldOk(d, f))
    ensures r.Success? ==>
      && ValidBooking(r.value)
      && r.value.experience == d.experience && r.value.user == d.user && r.value.slot == d.slot
      && r.value.participants == d.participants.value
      && r.value.customerInfo == CustomerInfo(d.customerInfo.name.value, d.customerInfo.email.value, d.customerInfo.phone)
      && r.value.totalAmount == d.totalAmount.value && r.value.finalAmount == d.finalAmount.value
      && r.value.discountAmount == (if d.discountAmount.Some? then d.discountAmount.value else 0.0)
      && r.value.status == (if d.status.None? then Confirmed else ParseStatus(d.status.value).value)
      && r.value.promoCode == d.promoCode && r.value.bookingReference == d.bookingReference
  {
    if BookingDraftOk(d) then
      Success(Booking(
        d.experience, d.user, d.slot, d.participants.value,
        CustomerInfo(d.customerInfo.name.value, d.customerInfo.email.value, d.customerInfo.phone),
        d.totalAmount.value,
        if d.discountAmount.Some? then d.discountAmount.value else 0.0,
        d.finalAmount.value, d.promoCode,
        if d.status.None? then Confirmed else ParseStatus(d.status.value).value,
        d.bookingReference))
    else
      Failure(BookingErrors(d))
  }

  /** The booking reference for a save at time `now`: "BK" and the last 8 characters of `now` in decimal. */
  function BookingReference(now: Timestamp): (r: string)
    ensures 3 <= |r| <= 10 && r[..2] == "BK"
  {
    "BK" + LastChars(Decimal(now), 8)
  }

  /** From 10^7 ms on, a reference is "BK" followed by exactly the eight low decimal digits of the time. */
  lemma ReferenceDigits(now: Timestamp)
    requires now >= Pow10(7)
    ensures BookingReference(now) == "BK" + PaddedDigits(now, 8)
    ensures |BookingReference(now)| == 10
  {
    DecimalSuffix(now, 8);
  }

  /** From 10^7 ms on, two save times give the same reference exactly when they agree modulo 10^8. */
  lemma ReferenceCollision(a: Timestamp, b: Timestamp)
    requires a >= Pow10(7) && b >= Pow10(7)
    ensures BookingReference(a) == BookingReference(b) <==> a % Pow10(8) == b % Pow10(8)
  {
    ReferenceDigits(a);
    ReferenceDigits(b);
    PaddedDigitsMod(a, b, 8);
    if BookingReference(a) == BookingReference(b) {
      assert PaddedDigits(a, 8) == BookingReference(a)[2..];
      assert PaddedDigits(b, 8) == BookingReference(b)[2..];
    }
  }

  /** The hook's test `!this.bookingReference`: an absent or empty reference counts as unset. */
  predicate HasReference(b: Booking)
  {
    b.bookingReference.Some? && b.bookingReference.value != ""
  }

  /** The `pre('save')` hook: the document with a reference, generated from `now` only if it had none. */
  function AssignReference(b: Booking, now: Timestamp): (r: Booking)
    ensures HasReference(r)
    ensures HasReference(b) ==> r == b
    ensures !HasReference(b) ==> r.bookingReference == Some(BookingReference(now))
    ensures r.(bookingReference := b.bookingReference) == b
  {
    if HasReference(b) then b else b.(bookingReference := Some(BookingReference(now)))
  }

  /** An assigned reference is never overwritten by a later save. */
  lemma AssignReferenceKeeps(b: Booking, first: Timestamp, later: Timestamp)
    ensures AssignReference(AssignReference(b, first), later) == AssignReference(b, first)
  {
  }

  /** The unique index on `bookingReference`, over the stored bookings. */
  predicate ReferencesUnique(ledger: seq<Booking>)
  {
    forall i, j :: 0 <= i < j < |ledger| ==> ledger[i].bookingReference != ledger[j].bookingReference
  }

  /** Why `Booking.create` threw. */
  datatype SaveError = ValidationFailed(fields: set<BookingField>) | DuplicateReference(reference: string)

  /** Whether some stored booking already holds `reference`. */
  predicate ReferenceTaken(ledger: seq<Booking>, reference: Option<string>)
  {
    exists i :: 0 <= i < |ledger| && ledger[i].bookingReference == reference
  }

  /**
   * `Booking.create` at time `now`: validate, run the save hook, then insert under the
   * unique index. The document it returns is what the ledger gains.
   */
  function SaveBooking(ledger: seq<Booking>, d: BookingDraft, now: Timestamp): (r: Result<Booking, SaveError>)
    ensures r.Failure? <==> !BookingDraftOk(d) || ReferenceTaken(ledger, AssignReference(CastBooking(d).value, now).bookingReference)
    ensures r.Failure? && !BookingDraftOk(d) ==> r.error == ValidationFailed(CastBooking(d).error)
    ensures r.Success? ==>
      && r.value == AssignReference(CastBooking(d).value, now)
      && ValidBooking(r.value) && HasReference(r.value)
      && (ReferencesUnique(ledger) ==> ReferencesUnique(ledger + [r.value]))
  {
    match CastBooking(d)
    case Failure(fields) => Failure(ValidationFailed(fields))
    case Success(b) =>
      var saved := AssignReference(b, now);
      if ReferenceTaken(ledger, saved.bookingReference) then Failure(DuplicateReference(saved.bookingReference.value))
      else Success(saved)
  }
}
