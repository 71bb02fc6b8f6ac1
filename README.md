# BookIt reservation and pricing engine in Dafny

This project models the core of the BookIt backend. BookIt is an Express/Mongoose service where users book places in time slots of travel experiences. The model covers:

- **Booking creation** (`POST /api/bookings`). The route looks up the experience and the first slot with the requested date and start time. It then checks capacity and prices the request: price times participants, less the route's inline promo table (`SAVE10`, `FLAT100`). It writes the booking record, which gets its `BK…` reference from the save hook. Only after that does it add the participants to the slot and save the experience.
  - `Reservation.Reserve` is this step as a function of the catalog and the ledger. Its lemmas prove:
    - every error leaves both unchanged;
    - a success debits exactly one slot by exactly the requested count and appends exactly one record;
    - `booked <= max` and reference uniqueness are preserved;
    - the price identities hold.
  - `Bookings.Database` holds the collections as mutable state:
    - an array of experience documents;
    - the booking ledger;
    - the promo store.
  - Its `CreateBooking` method does the same steps in place. It is proved to leave exactly the state and outcome `Reserve` describes.
- **My bookings** (`GET /api/bookings/my-bookings`): the requester's ledger entries, each with a projection of its experience.
- **Promo validation** (`POST /api/promo/validate`). This is a pure decision over the promo store, the clock and a subtotal. The rejections come in a fixed order. An accepted code gets a capped-percentage or fixed discount. The validator is kept separate from the booking route's inline table, as in the code.
- **Experience detail** (`GET /api/experiences/:id`): the experience with only the slots that still have room.
- **Documents**:
  - the Booking, Experience/Slot and PromoCode schemas, as casts from drafts (optional fields) to validated records, with their required paths, enums and defaults;
  - the booking reference `"BK"` plus the last 8 decimal digits of the save time;
  - the unique index on the reference.

Modules, in dependency order:

| module | file | what it holds |
|---|---|---|
| `Common` | common.dfy | Option/Result, `Filter`, `FirstWhere` |
| `Text` | text.dfy | trimming, upper-casing, decimal digits |
| `ExperienceModel` | experience_model.dfy | Slot and Experience documents and their schema casts |
| `ExperienceRoute` | experience_route.dfy | `findById` and the available-slot filter |
| `PromoModel` | promo_model.dfy | PromoCode document and its schema cast |
| `PromoRoute` | promo_route.dfy | the validation endpoint |
| `BookingModel` | booking_model.dfy | Booking document, schema cast, reference hook, unique index, `Booking.create` |
| `Reservation` | reservation.dfy | the booking route as a function, its lemmas, my-bookings |
| `Bookings` | bookings.dfy | the collections as a class and the route as an imperative method |

Conventions:

- Money is `real`, so it is exact. The SAVE10 discount is `total / 10`.
- Dates and the clock are `nat` millisecond timestamps, passed as parameters.
- A Mongoose `required` string rejects both a missing value and `""`.

## Model

| member | source | states |
|---|---|---|
| Bookings.Database.CreateBooking | backend/routes/bookings.js:8-93 | The outcome and the new experiences and ledger are exactly `Reserve` applied to the state before the call. The promo store is unchanged. `booked <= max` on every slot, and pairwise-distinct booking references, hold afterwards if they held before. |
| Bookings.Database.LookupExperience | backend/routes/bookings.js:20 | The linear scan returns the position `FindExperience` specifies: the first experience with that id, or none. |
| Bookings.SearchSlots | backend/routes/bookings.js:28-31 | The loop returns the index of the first slot whose date and start time both match, or none. This is exactly `FindSlot`. |
| Bookings.PriceRequest | backend/routes/bookings.js:48-60 | The route's `let` reassignments produce exactly `Price`: the total, the inline discount and total minus discount. |
| Bookings.Database.Insert | backend/routes/bookings.js:63-77 | `Booking.create` returns exactly `SaveBooking`'s result. The ledger grows by that one record on success and is unchanged on failure. The promo store is untouched. |
| Bookings.BookingDocument.PreSave | backend/models/Booking.js:63-68 | The hook leaves the document equal to `AssignReference` of its old value at the save time. |
| Reservation.Reserve | backend/routes/bookings.js:8-93 | Every non-created outcome leaves catalog and ledger unchanged. "Experience not found" happens exactly when no experience has the id. "Slot not available" happens exactly when the experience exists but no slot matches. |
| Reservation.FindSlot | backend/routes/bookings.js:28-31 | The result is a matching slot with no matching slot before it. None means no slot matches. |
| Reservation.NotEnoughSpotsIff | backend/routes/bookings.js:41-46 | "Not enough spots available" happens exactly when the addressed slot exists and `booked + participants > max`. |
| Reservation.ReserveNoRoom | backend/routes/bookings.js:41-46 | A request for an existing slot without room is refused and changes nothing. |
| Reservation.InlineDiscount | backend/routes/bookings.js:53-60 | `SAVE10` gives a tenth of the total, `FLAT100` gives 100, and every other code or no code gives 0. |
| Reservation.Price | backend/routes/bookings.js:49-60 | `totalAmount = price × participants`. `discountAmount` is the inline discount. `finalAmount = totalAmount − discountAmount` on every path. |
| Reservation.PriceBounds | backend/routes/bookings.js:53-60 | FLAT100 on a total under 100 gives a negative final amount, because nothing clamps it. SAVE10 or no code on a non-negative total keeps the discount between 0 and the total. |
| Reservation.InlineTableIsNotTheValidator | backend/routes/bookings.js:53-60 | The inline table is case-sensitive. For one stored SAVE10 record (10 %, no cap) on a 200 subtotal, "save10" earns nothing at booking while the validation endpoint accepts it, and the exact code "SAVE10" earns the validator's 20 at booking too. For a stored record with another percentage or a cap, the two paths can differ. |
| Reservation.AddParticipants | backend/routes/bookings.js:80 | Only slot `si` of the experience changes, and its booked count grows by exactly `participants`. Every other field and slot is equal. |
| Reservation.Debit | backend/routes/bookings.js:80-81 | Only the one experience changes, by `AddParticipants`. Every other experience is equal. |
| Reservation.ReserveAt | backend/routes/bookings.js:41-81 | Past the lookup and capacity checks, the outcome is the save's. A save failure is a server error with nothing changed. A success means the debit and the one appended record. |
| Reservation.ReserveSuccess | backend/routes/bookings.js:63-81 | A created booking passed every check. It has participants in [1, 10] and a present name and email. It debits exactly the addressed slot by exactly `participants` and appends exactly one record. That record holds the request's date and start time with the slot's end time, the route's prices, an empty promo code dropped, status confirmed, and the reference generated at the save time. |
| Reservation.ParticipantsOutOfRange | backend/routes/bookings.js:63-81 | A participant count outside [1, 10] never creates a booking and never changes capacity, because the record is refused before the debit. |
| Reservation.ReservePreservesCapacity | backend/routes/bookings.js:41-81 | If every slot has `booked <= max` before a request, every slot still does after it. |
| Reservation.ReservePreservesReferences | backend/models/Booking.js:54-57 | If the ledger's references are pairwise distinct before a request, they still are after it. |
| Reservation.SecondRequestRefused | backend/routes/bookings.js:41-46 | After a successful booking, a second request for the same slot is refused with "Not enough spots available" and changes nothing, if the two together ask for more than the slot had free. |
| Reservation.TargetAfterDebit | backend/routes/bookings.js:28-31 | A debit changes no id, date or start time, so every request addresses the same experience and slot afterwards. |
| Reservation.LastTwoPlaces | backend/routes/bookings.js:41-81 | In a slot priced 65 with 8 of 10 places taken, booking 2 costs 130 with no discount, and the slot is then full. |
| Reservation.NoPlaceLeft | backend/routes/bookings.js:41-46 | After that, a request for 1 more place is refused for lack of room. |
| Reservation.Summary | backend/routes/bookings.js:99 | The populated experience is absent exactly when no experience has the booking's id. When present, it is that experience's id, title, images and location. |
| Reservation.OwnedBy | backend/routes/bookings.js:98 | The result holds exactly the ledger entries of the user, with their multiplicities and in ledger order. |
| Reservation.MyBookings | backend/routes/bookings.js:96-111 | The i-th view holds the i-th booking the user owns, in ledger order and with its multiplicity. Every view's booking is the user's and in the ledger, and every booking of the user appears. Each view carries that booking's experience projection. |
| Reservation.StatusCode | backend/routes/bookings.js:22-88 | A created booking answers 201 and nothing else does. An unknown experience answers 404. A missing slot or a full slot answers 400. A refused record answers 500. |
| Reservation.DraftFor | backend/routes/bookings.js:63-77 | The record handed to `Booking.create` carries the request's experience, the user, the request's date and start time with the slot's end time, the participants and customer details as sent, and the route's total, discount and final amounts. It has no status or reference, so their defaults apply. An empty promo code is dropped and any other is kept. The record passes validation exactly when participants is in [1, 10] and the customer's name and email are present. |
| ExperienceRoute.FindExperience | backend/routes/experiences.js:38 | The result is the first experience with the id. None means no experience has it. |
| ExperienceRoute.AvailableSlots | backend/routes/experiences.js:49-51 | A slot is kept exactly when it is in the list with `booked < max`, with its multiplicity, as a subsequence in the original order. |
| ExperienceRoute.ExperienceDetail | backend/routes/experiences.js:36-68 | Not found happens exactly when no experience has the id. Otherwise every field except `slots` is passed through and `slots` is the available slots. |
| ExperienceRoute.AvailableSlotsIdempotent | backend/routes/experiences.js:49-51 | Filtering the filtered list changes nothing. |
| PromoRoute.FindPromo | backend/routes/promo.js:10-15 | The record found is active, carries the upper-cased code, and has `validFrom <= now <= validUntil`. None means no record passes all four conditions. |
| PromoRoute.Validate | backend/routes/promo.js:6-67 | "Invalid or expired" happens exactly when no record is found. "Usage limit" happens exactly when one is found whose limit is set, non-zero and reached. "Minimum" happens exactly when neither of those applies and the total is strictly below the minimum, and it quotes that minimum. An accepted quote echoes the stored upper-case code, type and value, with `finalAmount = total − discount`. |
| PromoRoute.Discount | backend/routes/promo.js:41-49 | Fixed gives the value unclamped. An uncapped percentage gives `total × value / 100`. A set, non-zero cap gives the smaller of the cap and that product. |
| PromoRoute.PercentageWithinTotal | backend/routes/promo.js:42-46 | A percentage in [0, 100] of a non-negative total, with a non-negative cap, lies between 0 and the total. |
| PromoRoute.ValidateIgnoresCase | backend/routes/promo.js:10-15 | A code and its upper-case form validate identically. |
| PromoRoute.UniqueCodeDecides | backend/models/PromoCode.js:4-9 | Under the unique index on `code`, the record stored under the upper-cased code is found exactly when it is redeemable now. Otherwise no record is found. |
| PromoRoute.ZeroLimitIsUnlimited | backend/routes/promo.js:25-30 | A usage limit that is absent or 0 never rejects, whatever the used count. |
| PromoRoute.MinimumIsInclusive | backend/routes/promo.js:33-38 | A total equal to the minimum is accepted. |
| PromoRoute.TenPercentExample | backend/routes/promo.js:41-59 | A stored SAVE10 record entered as "save10" on a 200 subtotal gives SAVE10 / percentage / 10, with 20 off and 180 to pay. |
| PromoRoute.ExpiredExample | backend/routes/promo.js:10-22 | A code past its `validUntil` is rejected as invalid or expired. |
| BookingModel.ParseStatus | backend/models/Booking.js:49-53 | Exactly "pending", "confirmed" and "cancelled" are accepted, and each parses back to its name. |
| BookingModel.BookingErrors | backend/models/Booking.js:3-60 | The error set is empty exactly when every validated path passes. |
| BookingModel.CastBooking | backend/models/Booking.js:3-60 | The cast succeeds exactly when participants is in [1, 10], name and email are present, totalAmount and finalAmount are given, and status, if given, is in the enum. A failure names exactly the failing paths. A success copies every field, defaults discountAmount to 0 and status to confirmed, and keeps phone optional. |
| BookingModel.BookingReference | backend/models/Booking.js:65 | The reference is "BK" followed by 1 to 8 characters. |
| BookingModel.ReferenceDigits | backend/models/Booking.js:65 | For a time of at least 10^7 ms, the reference is "BK" and exactly the eight low decimal digits of the time, 10 characters in all. |
| BookingModel.ReferenceCollision | backend/models/Booking.js:54-65 | For times of at least 10^7 ms, two references are equal exactly when the times agree modulo 10^8. Uniqueness therefore rests on the index. |
| BookingModel.AssignReference | backend/models/Booking.js:63-68 | The saved document always has a reference. One already present and non-empty is kept. An absent or empty one becomes the generated reference. No other field changes. |
| BookingModel.AssignReferenceKeeps | backend/models/Booking.js:64-66 | A later save never overwrites a reference assigned earlier. |
| BookingModel.SaveBooking | backend/models/Booking.js:54-68 | The save fails exactly when validation fails or the hooked reference is already stored; a validation failure reports the cast's failing paths. A success is the cast record after the hook: valid, with a reference, and keeping the ledger's references distinct. |
| ExperienceModel.ParseCategory | backend/models/Experience.js:41-45 | Exactly the five category names are accepted, each parsing back to its name. |
| ExperienceModel.ParseDifficulty | backend/models/Experience.js:61-65 | Exactly the three difficulty names are accepted, each parsing back to its name. |
| ExperienceModel.EnumNamesRoundTrip | backend/models/Experience.js:41-65 | Every category and difficulty parses back from its name. |
| ExperienceModel.SlotErrors | backend/models/Experience.js:3-28 | The slot error set is empty exactly when every required slot path is present. |
| ExperienceModel.CastSlot | backend/models/Experience.js:3-28 | The cast succeeds exactly when date, startTime, endTime, maxParticipants and price are present. A failure names exactly the missing paths. A success copies them and defaults bookedParticipants to 0. |
| ExperienceModel.NewSlotStartsEmpty | backend/models/Experience.js:20-23 | A slot cast without a booked count starts with 0 booked. |
| ExperienceModel.SlotCastRoundTrip | backend/models/Experience.js:3-28 | Casting a valid stored slot gives it back unchanged. |
| ExperienceModel.FieldErrorsEmptyIff | backend/models/Experience.js:30-65 | No top-level error happens exactly when every top-level path passes. |
| ExperienceModel.TopLevelPathsOk | backend/models/Experience.js:30-65 | The top-level paths all pass exactly when title, description, category, location, duration and difficulty each pass. |
| ExperienceModel.AstralTitleTooLong | backend/models/Experience.js:35 | A title of 60 characters from beyond the Basic Multilingual Plane is 120 code units long, so the title and the whole draft are refused. |
| ExperienceModel.ElementErrorsEmptyIff | backend/models/Experience.js:50-69 | No array error happens exactly when every image has a url and every slot casts. |
| ExperienceModel.ErrorsEmptyIffOk | backend/models/Experience.js:30-84 | Validation reports no error exactly when every path of the experience passes. |
| ExperienceModel.ErrorFields | backend/models/Experience.js:30-65 | The top-level paths named in the error set are exactly the failing ones. |
| ExperienceModel.CastImages | backend/models/Experience.js:50-56 | Every image draft is cast on its own, in order. |
| ExperienceModel.CastSlots | backend/models/Experience.js:69 | Every slot draft is cast on its own, in order, and each cast slot is valid. |
| ExperienceModel.BuildExperience | backend/models/Experience.js:30-84 | A draft whose paths all pass gives a valid experience. Its fields are the draft's: the trimmed title, the parsed category, description, location, the cast images, duration, includes, excludes and requirements. Difficulty defaults to Moderate, rating and reviewCount to 0 and featured to false. Each slot equals that slot's own cast. |
| ExperienceModel.CastExperience | backend/models/Experience.js:30-84 | The cast succeeds exactly when every path passes: trimmed title non-empty and at most 100 UTF-16 code units long, description, location and duration present, category in its enum, difficulty in its enum if given, every image with a url, every slot valid. A failure names exactly the failing top-level paths. A success trims the title and copies description, location, duration, the cast images, includes, excludes and requirements. It defaults difficulty to Moderate, rating and reviewCount to 0 and featured to false. |
| PromoModel.ParseDiscountType | backend/models/PromoCode.js:10-14 | Exactly "percentage" and "fixed" are accepted, each parsing back to its name. |
| PromoModel.PromoErrors | backend/models/PromoCode.js:3-45 | The promo error set is empty exactly when every required path passes. |
| PromoModel.CastPromo | backend/models/PromoCode.js:3-45 | The cast succeeds exactly when code, an enum discountType, discountValue, validFrom and validUntil are present. A failure names exactly the failing paths. A success stores the code upper-cased, defaults minAmount and usedCount to 0 and active to true, and leaves maxDiscount and usageLimit absent unless given. |
| PromoModel.CastCodeIgnoresCase | backend/models/PromoCode.js:4-9 | Drafts whose codes differ only in letter case are stored under the same code. |
| Text.TrimStart | backend/models/Experience.js:34 | The result is a suffix of the input, only whitespace was removed, and it does not start with whitespace. |
| Text.TrimEnd | backend/models/Experience.js:34 | The result is a prefix of the input, only whitespace was removed, and it does not end with whitespace. |
| Text.TrimIsTrimmedSlice | backend/models/Experience.js:34 | A trimmed string is a slice of the input with no white space at either end. Everything cut off before and after it is white space. |
| Text.TrimIdempotent | backend/models/Experience.js:34 | Trimming twice equals trimming once. |
| Text.ToUpper | backend/models/PromoCode.js:8 | Upper-casing keeps the length and leaves non-letters alone. Each lower-case letter becomes its upper-case letter, so no lower-case letter is left. |
| Text.ToUpperIdempotent | backend/routes/promo.js:11 | Upper-casing twice equals upper-casing once. A string is upper-case exactly when upper-casing leaves it unchanged. |
| Text.Decimal | backend/models/Booking.js:65 | The decimal string of a number is non-empty, all digits, and has no leading zero unless the number is 0. Its digits are exactly the number's low digits, and the number is below 10 to the power of its length, so the string denotes the number. |
| Text.LastChars | backend/models/Booking.js:65 | For every k ≥ 1, `slice(-k)` keeps the last `min(k, length)` characters. |
| Text.Utf16Length | backend/models/Experience.js:35 | The JavaScript length of a string is between its number of characters and twice that. It equals the number of characters exactly when no character lies beyond the Basic Multilingual Plane. |
| Text.Utf16LengthAppend | backend/models/Experience.js:35 | The length of a concatenation is the sum of the lengths. With `Utf16LengthChar` this fixes the length of every string as the sum over its characters. |
| Text.Utf16LengthChar | backend/models/Experience.js:35 | One character is one code unit in the Basic Multilingual Plane and two beyond it. |
| Text.Utf16LengthAstral | backend/models/Experience.js:35 | A string made only of characters beyond the Basic Multilingual Plane has a JavaScript length of twice its number of characters. |
| Text.DecimalSuffix | backend/models/Booking.js:65 | For a number of at least 10^(k-1), the last k characters of its decimal string are its k low digits, zero-padded. |
| Text.PaddedSuffix | backend/models/Booking.js:65 | The last k of a number's m padded low digits are its k padded low digits. |
| Text.PaddedDigitsMod | backend/models/Booking.js:65 | The k low digits of two numbers agree exactly when the numbers agree modulo 10^k. |

## Behaviour of the code that may surprise a reader

- **Discount clamp.** The booking route's `FLAT100` subtracts 100 unconditionally (backend/routes/bookings.js:57-59), so the amount to pay can be negative (`Reservation.PriceBounds`). The validator's fixed discount is not clamped to the subtotal either (backend/routes/promo.js:47-48).
- **Participant bounds.** An out-of-range participant count is not checked by the route. The experience lookup, slot search and capacity check run first. The bound of [1, 10] is enforced only when `Booking.create` validates. That failure ends in the 500 branch with capacity untouched (`Reservation.ParticipantsOutOfRange`).
- **Usage limit.** The limit check is a truthiness test, so a limit of 0 means unlimited (`PromoRoute.ZeroLimitIsUnlimited`).
- **No atomicity.** The route creates the booking record first and saves the experience with the new count afterwards, in two separate writes. The model takes the two as one sequential step in that order.
- **Reference collisions.** When the generated reference is already stored, the unique index makes `Booking.create` throw. The answer is the generic 500 (`Reservation.Outcome.ServerError` with `DuplicateReference`), not a conflict, and no slot is debited.
- **Two promo paths.** The validation endpoint looks a code up case-insensitively in the store. The booking route compares the code with two literal strings. Nothing connects the two, and the model keeps them apart (`Reservation.InlineTableIsNotTheValidator`).

## Left out

- Concurrency: two requests interleaving between the lookup, the record insert and the experience save are not modelled. Each request is one sequential step in the code's order.
- A failure of `experience.save()` after the record is inserted is not modelled. In the code that leaves a booking without a debit; in the model the write-back always succeeds.
- The experience write-back is modelled as replacing the experience value in its array cell. Aliasing of the Mongoose slot sub-document is not represented.
- JavaScript floating-point rounding: money is an exact `real`, and SAVE10 is `total / 10` rather than `total * 0.1`.
- Ids are `nat`. A malformed id string makes `findById` throw a cast error, which answers 500 in both routes (backend/routes/experiences.js:38 and 60-66, backend/routes/bookings.js:20 and 87-91). The model's ids cannot express this, so a malformed id is not modelled.
- Dates are `nat` timestamps. The ISO-string comparison of slot dates is timestamp equality, and a `slotDate` that does not parse (a `RangeError`, hence a 500) is not modelled.
- The two `new Date()` calls in the promo lookup are one `now` parameter. `Date.now()` in the save hook is the `now` parameter of the save.
- Request bodies of the wrong type are not modelled: a non-numeric `participants` (string concatenation in the capacity check), a missing promo `code` (a `TypeError` on `toUpperCase`), or a non-numeric `totalAmount`. Participants is an `int`, the code a string and the total a `real`.
- Text.ToUpper: upper-cases the ASCII letters only. Unicode case mapping is not modelled.
- Text.TrimStart, Text.TrimEnd: treat space, tab, line feed, vertical tab, form feed, carriage return, no-break space, the line and paragraph separators and the byte-order mark as white space. The other Unicode space separators (U+1680, U+2000 to U+200A, U+202F, U+205F, U+3000) are not modelled.
- The `createdAt`/`updatedAt` timestamps that `timestamps: true` adds are not modelled.
- Error messages of the 500 answers (`error.message`) are not modelled; the outcome carries the failing paths or the duplicate reference instead. `Reservation.StatusCode` maps outcomes to HTTP codes.
- Bookings.Database.CreateBooking: does not restate "an error changes nothing" in its own contract. That follows from its equation with `Reservation.Reserve`, whose contract states it.
- `GET /api/experiences` (the list projection), authentication and its middleware, the admin routes, the server wiring, the seed script and the frontend are not part of this model.
- The promo `usedCount` is never incremented by the code, and the model adds no increment. The validation endpoint is a function of the store, so it writes nothing.
- The unique index on the promo `code` is stated as `PromoModel.CodesUnique`, and `PromoRoute.UniqueCodeDecides` uses it. No operation in the core inserts promo records, so nothing is proved to preserve it.
