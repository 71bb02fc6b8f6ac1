/**
 * The booking route over mutable state: the experience collection (an array of
 * documents, each holding its embedded slots), the booking collection and the
 * promo collection. `CreateBooking` searches, checks, prices, saves the record
 * and then writes back the experience with the matched slot's counter bumped;
 * its contract ties every outcome and the new state to `Reservation.Reserve`.
 */
module Bookings {
  import opened Common
  import opened ExperienceModel
  import opened BookingModel
  import opened PromoModel
  import opened ExperienceRoute
  import opened Reservation

  /** A booking document between `Booking.create`'s validation and its insert. */
  class BookingDocument {
    var data: Booking

    constructor (b: Booking)
      ensures data == b
    {
      data := b;
    }

    /** The `pre('save')` hook: set the reference from `now` when it is absent or empty. */
    method PreSave(now: Timestamp)
      modifies this
      ensures data == AssignReference(old(data), now)
    {
      if data.bookingReference.None? || data.bookingReference.value == "" {
        data := data.(bookingReference := Some(BookingReference(now)));
      }
    }
  }

  /** `slots.find(...)` as a linear scan of the embedded slots. */
  method SearchSlots(slots: seq<Slot>, date: Timestamp, startTime: string) returns (r: Option<nat>)
    ensures r == FindSlot(slots, date, startTime)
  {
    var j := 0;
    while j < |slots|
      invariant 0 <= j <= |slots|
      invariant forall i :: 0 <= i < j ==> !SlotMatches(slots[i], date, startTime)
    {
      if slots[j].date == date && slots[j].startTime == startTime {
        return Some(j);
      }
      j := j + 1;
    }
    return None;
  }

  /** The route's pricing: start from no discount and apply the inline promo table. */
  method PriceRequest(price: real, participants: int, promoCode: Option<string>) returns (r: Pricing)
    ensures r == Price(price, participants, promoCode)
  {
    var totalAmount := price * participants as real;
    var discountAmount := 0.0;
    var finalAmount := totalAmount;
    if promoCode == Some("SAVE10") {
      discountAmount := totalAmount / 10.0;
      finalAmount := totalAmount - discountAmount;
    } else if promoCode == Some("FLAT100") {
      discountAmount := 100.0;
      finalAmount := totalAmount - discountAmount;
    }
    return Pricing(totalAmount, discountAmount, finalAmount);
  }

  /**
   * The three collections the engine works on: experiences (each saved as a whole
   * document, embedded slots included), bookings and promo codes.
   */
  class Database {
    const experiences: array<Experience>
    var ledger: seq<Booking>
    var promos: seq<PromoCode>

    constructor (catalog: seq<Experience>, bookings: seq<Booking>, store: seq<PromoCode>)
      ensures experiences[..] == catalog && ledger == bookings && promos == store
    {
      experiences := new Experience[|catalog|](i requires 0 <= i < |catalog| => catalog[i]);
      ledger := bookings;
      promos := store;
    }

    /** `Experience.findById`: a scan of the collection for the id. */
    method LookupExperience(id: ExperienceId) returns (r: Option<nat>)
      ensures r == FindExperience(experiences[..], id)
    {
      var k := 0;
      while k < experiences.Length
        invariant 0 <= k <= experiences.Length
        invariant forall j :: 0 <= j < k ==> experiences[j].info.id != id
      {
        if experiences[k].info.id == id {
          return Some(k);
        }
        k := k + 1;
      }
      return None;
    }

    /**
     * POST /api/bookings for `user` at time `now`: find the experience and the slot, check
     * capacity, price, create the record, and only then add the participants to the slot
     * and save the experience. The outcome and the new experiences and ledger are exactly
     * those of `Reserve` on the state before the call; the promo collection is untouched.
     */
    method CreateBooking(req: BookingRequest, user: UserId, now: Timestamp) returns (outcome: Outcome)
      modifies this, experiences
      ensures promos == old(promos)
      ensures Reserve(old(experiences[..]), old(ledger), req, user, now) == Reserved(outcome, experiences[..], ledger)
      ensures WithinCapacity(old(experiences[..])) ==> WithinCapacity(experiences[..])
      ensures ReferencesUnique(old(ledger)) ==> ReferencesUnique(ledger)
    {
      ghost var before := experiences[..];
      if WithinCapacity(before) {
        ReservePreservesCapacity(before, ledger, req, user, now);
      }
      if ReferencesUnique(ledger) {
        ReservePreservesReferences(before, ledger, req, user, now);
      }
      var found := LookupExperience(req.experienceId);
      if found.None? {
        return ExperienceNotFound;
      }
      var ei := found.value;
      var experience := experiences[ei];
      var s := SearchSlots(experience.slots, req.slotDate, req.slotStartTime);
      if s.None? {
        return SlotNotAvailable;
      }
      var si := s.value;
      var slot := experience.slots[si];
      if slot.bookedParticipants + req.participants > slot.maxParticipants {
        return NotEnoughSpots;
      }
      ReserveAt(before, ledger, req, user, now, ei, si);

      var pricing := PriceRequest(slot.price, req.participants, req.promoCode);
      var saved := Insert(DraftFor(req, user, slot, pricing), now);
      if saved.Failure? {
        return ServerError(saved.error);
      }
      experiences[ei] := AddParticipants(experience, si, req.participants);
      assert experiences[..] == Debit(before, ei, si, req.participants);
      return Created(saved.value);
    }

    /** `Booking.create`: schema validation, then the save hook, then the insert under the unique index. */
    method Insert(draft: BookingDraft, now: Timestamp) returns (r: Result<Booking, SaveError>)
      modifies this
      ensures promos == old(promos)
      ensures r == SaveBooking(old(ledger), draft, now)
      ensures ledger == if r.Success? then old(ledger) + [r.value] else old(ledger)
    {
      var cast := CastBooking(draft);
      if cast.Failure? {
        return Failure(ValidationFailed(cast.error));
      }
      var record := new BookingDocument(cast.value);
      record.PreSave(now);
      var b := record.data;
      if ReferenceTaken(ledger, b.bookingReference) {
        return Failure(DuplicateReference(b.bookingReference.value));
      }
      ledger := ledger + [b];
      return Success(b);
    }
  }
}
