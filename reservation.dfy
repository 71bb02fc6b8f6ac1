/**
 * What POST /api/bookings does to the catalog and the ledger, as a function of
 * their values: look up the experience and the first slot matching the
 * requested date and start time, check capacity, price with the inline promo
 * table, create the booking record, then debit the slot. Also GET
 * /api/bookings/my-bookings.
 */
module Reservation {
  import opened Common
  import opened ExperienceModel
  import opened BookingModel
  import opened ExperienceRoute
  import PromoModel
  import PromoRoute

  /** The request body, with the authenticated user and the clock passed alongside. */
  datatype BookingRequest = BookingRequest(
    experienceId: ExperienceId,
    slotDate: Timestamp,
    slotStartTime: string,
    participants: int,
    customerInfo: CustomerInfoDraft,
    promoCode: Option<string>)

  /** The route's answers: 201 with the booking, 404, two kinds of 400, or 500 when the record is refused. */
  datatype Outcome =
    | Created(booking: Booking)
    | ExperienceNotFound
    | SlotNotAvailable
    | NotEnoughSpots
    | ServerError(error: SaveError)

  /** The HTTP status of each answer: 201 only for a created booking, 500 only for a refused record. */
  function StatusCode(o: Outcome): (code: int)
    ensures code == 201 <==> o.Created?
    ensures code == 404 <==> o == ExperienceNotFound
    ensures code == 400 <==> o == SlotNotAvailable || o == NotEnoughSpots
    ensures code == 500 <==> o.ServerError?
  {
    match o
    case Created(_) => 201
    case ExperienceNotFound => 404
    case SlotNotAvailable => 400
    case NotEnoughSpots => 400
    case ServerError(_) => 500
  }

  /** The outcome and the catalog and ledger it leaves behind. */
  datatype Reserved = Reserved(outcome: Outcome, catalog: seq<Experience>, ledger: seq<Booking>)

  /** The slot lookup's test: same date and same start time. */
  predicate SlotMatches(s: Slot, date: Timestamp, startTime: string)
  {
    s.date == date && s.startTime == startTime
  }

  /** `slots.find(...)`: the first slot with the requested date and start time. */
  function FindSlot(slots: seq<Slot>, date: Timestamp, startTime: string): (r: Option<nat>)
    ensures r.Some? ==> r.value < |slots| && SlotMatches(slots[r.value], date, startTime)
    ensures r.Some? ==> forall j :: 0 <= j < r.value ==> !SlotMatches(slots[j], date, startTime)
    ensures r.None? ==> forall j :: 0 <= j < |slots| ==> !SlotMatches(slots[j], date, startTime)
  {
    FirstWhere(slots, (s: Slot) => SlotMatches(s, date, startTime))
  }

  /** The capacity check: the request fits when booked plus requested stays within the maximum. */
  predicate HasRoom(s: Slot, participants: int)
  {
    s.bookedParticipants + participants <= s.maxParticipants
  }

  /** The inline promo table of the booking route: exact, case-sensitive codes; anything else is no discount. */
  function InlineDiscount(promoCode: Option<string>, totalAmount: real): (d: real)
    ensures promoCode == Some("SAVE10") ==> d * 10.0 == totalAmount
    ensures promoCode == Some("FLAT100") ==> d == 100.0
    ensures promoCode != Some("SAVE10") && promoCode != Some("FLAT100") ==> d == 0.0
  {
    if promoCode == Some("SAVE10") then totalAmount / 10.0
    else if promoCode == Some("FLAT100") then 100.0
    else 0.0
  }

  datatype Pricing = Pricing(totalAmount: real, discountAmount: real, finalAmount: real)

  /** The booking's amounts: price times participants, less the inline discount, with no clamp. */
  function Price(price: real, participants: int, promoCode: Option<string>): (r: Pricing)
    ensures r.totalAmount == price * participants as real
    ensures r.discountAmount == InlineDiscount(promoCode, r.totalAmount)
    ensures r.finalAmount == r.totalAmount - r.discountAmount
  {
    var total := price * participants as real;
    var discount := InlineDiscount(promoCode, total);
    Pricing(total, discount, total - discount)
  }

  /**
   * The inline table never clamps: FLAT100 on a total under 100 leaves a negative amount
   * to pay, while SAVE10 and no code keep the discount between 0 and a non-negative total.
   */
  lemma PriceBounds(price: real, participants: int, promoCode: Option<string>)
    ensures
      var r := Price(price, participants, promoCode);
      && (promoCode == Some("FLAT100") && r.totalAmount < 100.0 ==> r.finalAmount < 0.0)
      && (r.totalAmount >= 0.0 && promoCode != Some("FLAT100") ==> 0.0 <= r.discountAmount <= r.totalAmount)
  {
  }

  /** The record handed to `Booking.create`: the request's date and start time, the slot's end time. */
  function DraftFor(req: BookingRequest, user: UserId, slot: Slot, pricing: Pricing): (d: BookingDraft)
    ensures d.experience == req.experienceId && d.user == user
    ensures d.participants == Some(req.participants) && d.customerInfo == req.customerInfo
    ensures d.totalAmount == Some(pricing.totalAmount) && d.discountAmount == Some(pricing.discountAmount)
    ensures d.finalAmount == Some(pricing.finalAmount)
    ensures d.slot.date == req.slotDate && d.slot.startTime == req.slotStartTime && d.slot.endTime == slot.endTime
    ensures d.promoCode.Some? ==> d.promoCode == req.promoCode && d.promoCode.value != ""
    ensures req.promoCode.Some? && req.promoCode.value != "" ==> d.promoCode == req.promoCode
    ensures d.status.None? && d.bookingReference.None?
    ensures BookingDraftOk(d) <==>
      && MinParticipants <= req.participants <= MaxParticipants
      && IsPresent(req.customerInfo.name) && IsPresent(req.customerInfo.email)
  {
    BookingDraft(
      req.experienceId, user,
      SlotSnapshot(req.slotDate, req.slotStartTime, slot.endTime),
      Some(req.participants), req.customerInfo,
      Some(pricing.totalAmount), Some(pricing.discountAmount), Some(pricing.finalAmount),
      if req.promoCode == Some("") then None else req.promoCode,
      None, None)
  }

  /** `slot.bookedParticipants += participants` on slot `si` of one experience, nothing else changed. */
  function AddParticipants(e: Experience, si: nat, participants: int): (r: Experience)
    requires si < |e.slots|
    ensures r.info == e.info && |r.slots| == |e.slots|
    ensures forall j :: 0 <= j < |e.slots| && j != si ==> r.slots[j] == e.slots[j]
    ensures r.slots[si].bookedParticipants == e.slots[si].bookedParticipants + participants
    ensures r.slots[si].(bookedParticipants := e.slots[si].bookedParticipants) == e.slots[si]
  {
    e.(slots := e.slots[si := e.slots[si].(bookedParticipants := e.slots[si].bookedParticipants + participants)])
  }

  /** The catalog after adding `participants` to slot `si` of experience `ei`, and nothing else. */
  function Debit(catalog: seq<Experience>, ei: nat, si: nat, participants: int): (r: seq<Experience>)
    requires ei < |catalog| && si < |catalog[ei].slots|
    ensures |r| == |catalog| && r[ei] == AddParticipants(catalog[ei], si, participants)
    ensures forall k :: 0 <= k < |catalog| && k != ei ==> r[k] == catalog[k]
  {
    catalog[ei := AddParticipants(catalog[ei], si, participants)]
  }

  /** POST /api/bookings as a function of the catalog and ledger before the call. */
  function Reserve(catalog: seq<Experience>, ledger: seq<Booking>, req: BookingRequest, user: UserId, now: Timestamp): (r: Reserved)
    ensures !r.outcome.Created? ==> r.catalog == catalog && r.ledger == ledger
    ensures r.outcome == ExperienceNotFound <==> FindExperience(catalog, req.experienceId).None?
    ensures r.outcome == SlotNotAvailable <==>
      && FindExperience(catalog, req.experienceId).Some?
      && FindSlot(catalog[FindExperience(catalog, req.experienceId).value].slots, req.slotDate, req.slotStartTime).None?
  {
    match FindExperience(catalog, req.experienceId)
    case None => Reserved(ExperienceNotFound, catalog, ledger)
    case Some(ei) =>
      match FindSlot(catalog[ei].slots, req.slotDate, req.slotStartTime)
      case None => Reserved(SlotNotAvailable, catalog, ledger)
      case Some(si) =>
        var slot := catalog[ei].slots[si];
        if !HasRoom(slot, req.participants) then Reserved(NotEnoughSpots, catalog, ledger)
        else
          var pricing := Price(slot.price, req.participants, req.promoCode);
          match SaveBooking(ledger, DraftFor(req, user, slot, pricing), now)
          case Failure(e) => Reserved(ServerError(e), catalog, ledger)
          case Success(b) => Reserved(Created(b), Debit(catalog, ei, si, req.participants), ledger + [b])
  }

  /** The experience and slot a request addresses, when both exist. */
  function Target(catalog: seq<Experience>, req: BookingRequest): (r: Option<(nat, nat)>)
    ensures r.Some? ==> r.value.0 < |catalog| && r.value.1 < |catalog[r.value.0].slots|
  {
    match FindExperience(catalog, req.experienceId)
    case None => None
    case Some(ei) =>
      match FindSlot(catalog[ei].slots, req.slotDate, req.slotStartTime)
      case None => None
      case Some(si) => Some((ei, si))
  }

  /** Past the checks, `Reserve` is the save's outcome, and on success the debit and the append. */
  lemma ReserveAt(catalog: seq<Experience>, ledger: seq<Booking>, req: BookingRequest, user: UserId, now: Timestamp, ei: nat, si: nat)
    requires Target(catalog, req) == Some((ei, si))
    requires HasRoom(catalog[ei].slots[si], req.participants)
    ensures
      var slot := catalog[ei].slots[si];
      var saved := SaveBooking(ledger, DraftFor(req, user, slot, Price(slot.price, req.participants, req.promoCode)), now);
      Reserve(catalog, ledger, req, user, now) ==
        if saved.Failure? then Reserved(ServerError(saved.error), catalog, ledger)
        else Reserved(Created(saved.value), Debit(catalog, ei, si, req.participants), ledger + [saved.value])
  {
  }

  /** The capacity check rejects exactly the requests whose slot exists but has too little room. */
  lemma NotEnoughSpotsIff(catalog: seq<Experience>, ledger: seq<Booking>, req: BookingRequest, user: UserId, now: Timestamp)
    ensures Reserve(catalog, ledger, req, user, now).outcome == NotEnoughSpots <==>
      && Target(catalog, req).Some?
      && !HasRoom(catalog[Target(catalog, req).value.0].slots[Target(catalog, req).value.1], req.participants)
  {
  }

  /**
   * A successful booking passed every check, debits exactly the addressed slot by exactly
   * the requested participants and appends exactly one record: the request's experience,
   * the user, the request's date and start time with the slot's end time, the customer
   * details, the route's prices, status confirmed and the reference generated at `now`.
   */
  lemma {:induction false} ReserveSuccess(catalog: seq<Experience>, ledger: seq<Booking>, req: BookingRequest, user: UserId, now: Timestamp)
    requires Reserve(catalog, ledger, req, user, now).outcome.Created?
    ensures Target(catalog, req).Some?
    ensures
      var r := Reserve(catalog, ledger, req, user, now);
      var (ei, si) := Target(catalog, req).value;
      var slot := catalog[ei].slots[si];
      var price := Price(slot.price, req.participants, req.promoCode);
      && HasRoom(slot, req.participants)
      && MinParticipants <= req.participants <= MaxParticipants
      && IsPresent(req.customerInfo.name) && IsPresent(req.customerInfo.email)
      && r.catalog == Debit(catalog, ei, si, req.participants)
      && r.ledger == ledger + [r.outcome.booking]
      && r.outcome.booking == Booking(
           req.experienceId, user, SlotSnapshot(req.slotDate, req.slotStartTime, slot.endTime), req.participants,
           CustomerInfo(req.customerInfo.name.value, req.customerInfo.email.value, req.customerInfo.phone),
           price.totalAmount, price.discountAmount, price.finalAmount,
           if req.promoCode == Some("") then None else req.promoCode,
           Confirmed, Some(BookingReference(now)))
  {
    var ei := FindExperience(catalog, req.experienceId).value;
    var si := FindSlot(catalog[ei].slots, req.slotDate, req.slotStartTime).value;
    assert Target(catalog, req) == Some((ei, si));
    var slot := catalog[ei].slots[si];
    assert HasRoom(slot, req.participants);
    ReserveAt(catalog, ledger, req, user, now, ei, si);
    var d := DraftFor(req, user, slot, Price(slot.price, req.participants, req.promoCode));
    var saved := SaveBooking(ledger, d, now);
    assert saved.Success?;
    assert BookingDraftOk(d);
    var c := CastBooking(d).value;
    assert c.bookingReference == None && c.status == Confirmed;
    assert saved.value == c.(bookingReference := Some(BookingReference(now)));
  }

  /** A participant count outside [1, 10] never books and never touches capacity. */
  lemma ParticipantsOutOfRange(catalog: seq<Experience>, ledger: seq<Booking>, req: BookingRequest, user: UserId, now: Timestamp)
    requires req.participants < MinParticipants || req.participants > MaxParticipants
    ensures !Reserve(catalog, ledger, req, user, now).outcome.Created?
    ensures Reserve(catalog, ledger, req, user, now).catalog == catalog
  {
    if Reserve(catalog, ledger, req, user, now).outcome.Created? {
      ReserveSuccess(catalog, ledger, req, user, now);
    }
  }

  /** Every slot's booked count is within its maximum. */
  predicate WithinCapacity(catalog: seq<Experience>)
  {
    forall k, j :: 0 <= k < |catalog| && 0 <= j < |catalog[k].slots| ==>
      catalog[k].slots[j].bookedParticipants <= catalog[k].slots[j].maxParticipants
  }

  /** No booking ever takes a slot over its maximum. */
  lemma {:induction false} ReservePreservesCapacity(catalog: seq<Experience>, ledger: seq<Booking>, req: BookingRequest, user: UserId, now: Timestamp)
    requires WithinCapacity(catalog)
    ensures WithinCapacity(Reserve(catalog, ledger, req, user, now).catalog)
  {
    if Reserve(catalog, ledger, req, user, now).outcome.Created? {
      ReserveSuccess(catalog, ledger, req, user, now);
    }
  }

  /** The ledger's references stay pairwise distinct. */
  lemma {:induction false} ReservePreservesReferences(catalog: seq<Experience>, ledger: seq<Booking>, req: BookingRequest, user: UserId, now: Timestamp)
    requires ReferencesUnique(ledger)
    ensures ReferencesUnique(Reserve(catalog, ledger, req, user, now).ledger)
  {
    var r := Reserve(catalog, ledger, req, user, now);
    if r.outcome.Created? {
      ReserveSuccess(catalog, ledger, req, user, now);
      var (ei, si) := Target(catalog, req).value;
      var slot := catalog[ei].slots[si];
      var d := DraftFor(req, user, slot, Price(slot.price, req.participants, req.promoCode));
      assert SaveBooking(ledger, d, now).Success?;
    }
  }

  /**
   * Two requests for the same slot made one after the other: when the first succeeds and
   * together they ask for more than the slot had free, the second is refused with
   * "Not enough spots available" and changes nothing.
   */
  lemma {:induction false} SecondRequestRefused(
    catalog: seq<Experience>, ledger: seq<Booking>, a: BookingRequest, b: BookingRequest,
    user: UserId, nowA: Timestamp, nowB: Timestamp)
    requires Reserve(catalog, ledger, a, user, nowA).outcome.Created?
    requires (b.experienceId, b.slotDate, b.slotStartTime) == (a.experienceId, a.slotDate, a.slotStartTime)
    requires
      var (ei, si) := Target(catalog, a).value;
      a.participants + b.participants > catalog[ei].slots[si].maxParticipants - catalog[ei].slots[si].bookedParticipants
    ensures
      var first := Reserve(catalog, ledger, a, user, nowA);
      Reserve(first.catalog, first.ledger, b, user, nowB) == Reserved(NotEnoughSpots, first.catalog, first.ledger)
  {
    ReserveSuccess(catalog, ledger, a, user, nowA);
    var first := Reserve(catalog, ledger, a, user, nowA);
    var (ei, si) := Target(catalog, a).value;
    TargetAfterDebit(catalog, a, ei, si, a.participants);
    assert Target(first.catalog, b) == Target(catalog, a);
    ReserveNoRoom(first.catalog, first.ledger, b, user, nowB, ei, si);
  }

  /** A debit changes no id and no slot key, so every request still addresses the same slot. */
  lemma {:induction false} TargetAfterDebit(catalog: seq<Experience>, req: BookingRequest, ei: nat, si: nat, participants: int)
    requires ei < |catalog| && si < |catalog[ei].slots|
    ensures Target(Debit(catalog, ei, si, participants), req) == Target(catalog, req)
  {
    var after := Debit(catalog, ei, si, participants);
    assert forall k :: 0 <= k < |after| ==> after[k].info.id == catalog[k].info.id;
    SameFind(catalog, after, req.experienceId);
    var found := FindExperience(catalog, req.experienceId);
    if found.Some? {
      var slots, slots' := catalog[found.value].slots, after[found.value].slots;
      assert forall j :: 0 <= j < |slots| ==>
        (SlotMatches(slots'[j], req.slotDate, req.slotStartTime) <==> SlotMatches(slots[j], req.slotDate, req.slotStartTime));
      SameSlot(slots, slots', req.slotDate, req.slotStartTime);
    }
  }

  /** A request whose slot exists but lacks room is refused and changes nothing. */
  lemma ReserveNoRoom(catalog: seq<Experience>, ledger: seq<Booking>, req: BookingRequest, user: UserId, now: Timestamp, ei: nat, si: nat)
    requires Target(catalog, req) == Some((ei, si))
    requires !HasRoom(catalog[ei].slots[si], req.participants)
    ensures Reserve(catalog, ledger, req, user, now) == Reserved(NotEnoughSpots, catalog, ledger)
  {
  }

  /** Two catalogs with the same ids in the same places find the same experience. */
  lemma SameFind(c: seq<Experience>, c': seq<Experience>, id: ExperienceId)
    requires |c| == |c'| && forall k :: 0 <= k < |c| ==> c'[k].info.id == c[k].info.id
    ensures FindExperience(c', id) == FindExperience(c, id)
  {
  }

  /** Two slot lists that match the key at the same positions find the same slot. */
  lemma SameSlot(s: seq<Slot>, s': seq<Slot>, date: Timestamp, startTime: string)
    requires |s| == |s'|
    requires forall j :: 0 <= j < |s| ==> (SlotMatches(s'[j], date, startTime) <==> SlotMatches(s[j], date, startTime))
    ensures FindSlot(s', date, startTime) == FindSlot(s, date, startTime)
  {
  }

  /** An experience with one slot priced 65 and 8 of its 10 places taken. */
  function SampleCatalog(): seq<Experience>
  {
    [Experience(ExperienceInfo(7, "X", "", Adventure, "", [], 3.0, Moderate, [], [], [], 0.0, 0, false),
                [Slot(1000, "09:00", "12:00", 10, 8, 65.0)])]
  }

  /** A request for `participants` places in that slot, without a promo code. */
  function SampleRequest(participants: int): BookingRequest
  {
    BookingRequest(7, 1000, "09:00", participants, CustomerInfoDraft(Some("A"), Some("a@b"), None), None)
  }

  /** Booking the last 2 places costs 130 and fills the slot. */
  lemma {:induction false} LastTwoPlaces()
    ensures
      var first := Reserve(SampleCatalog(), [], SampleRequest(2), 1, 20000000);
      && first.outcome.Created?
      && first.outcome.booking.totalAmount == 130.0 && first.outcome.booking.finalAmount == 130.0
      && first.catalog == Debit(SampleCatalog(), 0, 0, 2)
      && first.catalog[0].slots[0].bookedParticipants == first.catalog[0].slots[0].maxParticipants
  {
    var catalog, req := SampleCatalog(), SampleRequest(2);
    assert FindExperience(catalog, 7) == Some(0);
    assert FindSlot(catalog[0].slots, 1000, "09:00") == Some(0);
    assert Target(catalog, req) == Some((0, 0));
    ReserveAt(catalog, [], req, 1, 20000000, 0, 0);
    var d := DraftFor(req, 1, catalog[0].slots[0], Price(65.0, 2, None));
    assert BookingDraftOk(d);
    assert SaveBooking([], d, 20000000).Success?;
    ReserveSuccess(catalog, [], req, 1, 20000000);
  }

  /** Once the slot is full, a request for 1 more place is refused. */
  lemma {:induction false} NoPlaceLeft()
    ensures
      var first := Reserve(SampleCatalog(), [], SampleRequest(2), 1, 20000000);
      Reserve(first.catalog, first.ledger, SampleRequest(1), 1, 20000001).outcome == NotEnoughSpots
  {
    LastTwoPlaces();
    SecondRequestRefused(SampleCatalog(), [], SampleRequest(2), SampleRequest(1), 1, 20000000, 20000001);
  }

  /**
   * The booking route's table and the validation endpoint are separate paths: "save10"
   * earns nothing at booking, while the endpoint accepts it for a stored SAVE10 record.
   */
  lemma InlineTableIsNotTheValidator()
    ensures
      var save10 := PromoModel.PromoCode("SAVE10", PromoModel.Percentage, 10.0, 0.0, None, 0, 100, None, 0, true);
      && InlineDiscount(Some("save10"), 200.0) == 0.0
      && PromoRoute.Validate([save10], "save10", 200.0, 50).Accepted?
      && InlineDiscount(Some("SAVE10"), 200.0) == PromoRoute.Validate([save10], "save10", 200.0, 50).quote.discountAmount
  {
    PromoRoute.TenPercentExample();
  }

  /** The projection `populate('experience', 'title images location')` attaches to each booking. */
  datatype ExperienceSummary = ExperienceSummary(id: ExperienceId, title: string, images: seq<Image>, location: string)

  datatype BookingView = BookingView(booking: Booking, experience: Option<ExperienceSummary>)

  function Summary(catalog: seq<Experience>, id: ExperienceId): (r: Option<ExperienceSummary>)
    ensures r.None? <==> FindExperience(catalog, id).None?
    ensures r.Some? ==>
      var e := catalog[FindExperience(catalog, id).value].info;
      r.value == ExperienceSummary(id, e.title, e.images, e.location)
  {
    match FindExperience(catalog, id)
    case None => None
    case Some(k) =>
      var e := catalog[k].info;
      Some(ExperienceSummary(e.id, e.title, e.images, e.location))
  }

  /** `Booking.find({ user })`: the ledger entries of one user, in ledger order. */
  function OwnedBy(ledger: seq<Booking>, user: UserId): (r: seq<Booking>)
    ensures forall b :: b in r <==> b in ledger && b.user == user
    ensures forall b :: multiset(r)[b] == if b.user == user then multiset(ledger)[b] else 0
    ensures IsSubsequence(r, ledger)
  {
    Filter(ledger, (b: Booking) => b.user == user)
  }

  /** GET /api/bookings/my-bookings: the user's bookings, each with its experience's title, images and location. */
  function MyBookings(ledger: seq<Booking>, catalog: seq<Experience>, user: UserId): (r: seq<BookingView>)
    ensures |r| == |OwnedBy(ledger, user)|
    ensures forall i :: 0 <= i < |r| ==> r[i].booking.user == user && r[i].booking in ledger
    ensures forall b :: b in ledger && b.user == user ==> exists i :: 0 <= i < |r| && r[i].booking == b
    ensures forall i :: 0 <= i < |r| ==> r[i].booking == OwnedBy(ledger, user)[i]
    ensures forall i :: 0 <= i < |r| ==> r[i].experience == Summary(catalog, r[i].booking.experience)
  {
    var owned := OwnedBy(ledger, user);
    var r := seq(|owned|, i requires 0 <= i < |owned| => BookingView(owned[i], Summary(catalog, owned[i].experience)));
    assert forall i :: 0 <= i < |r| ==> r[i].booking == owned[i];
    r
  }
}
