/**
 * GET /api/experiences/:id: the experience with only the slots that still
 * have room, every other field passed through.
 */
module ExperienceRoute {
  import opened Common
  import opened ExperienceModel

  /** The detail response: the filtered experience, or 404 "Experience not found" with null data. */
  datatype Detail = Found(experience: Experience) | NotFound

  predicate HasSpareCapacity(s: Slot)
  {
    s.bookedParticipants < s.maxParticipants
  }

  /** `findById`: the position of the experience with this id, if any. */
  function FindExperience(catalog: seq<Experience>, id: ExperienceId): (r: Option<nat>)
    ensures r.Some? ==> r.value < |catalog| && catalog[r.value].info.id == id
    ensures r.Some? ==> forall k :: 0 <= k < r.value ==> catalog[k].info.id != id
    ensures r.None? ==> forall k :: 0 <= k < |catalog| ==> catalog[k].info.id != id
  {
    FirstWhere(catalog, (e: Experience) => e.info.id == id)
  }

  /** The slots offered for booking: exactly those not yet full, in their stored order. */
  function AvailableSlots(slots: seq<Slot>): (r: seq<Slot>)
    ensures forall s :: s in r <==> s in slots && s.bookedParticipants < s.maxParticipants
    ensures forall s :: multiset(r)[s] == if HasSpareCapacity(s) then multiset(slots)[s] else 0
    ensures IsSubsequence(r, slots)
  {
    Filter(slots, HasSpareCapacity)
  }

  /** The detail view of one experience. */
  function ExperienceDetail(catalog: seq<Experience>, id: ExperienceId): (r: Detail)
    ensures r.NotFound? <==> FindExperience(catalog, id).None?
    ensures r.Found? ==>
      var e := catalog[FindExperience(catalog, id).value];
      && r.experience.info == e.info
      && r.experience.slots == AvailableSlots(e.slots)
  {
    match FindExperience(catalog, id)
    case None => NotFound
    case Some(k) => Found(catalog[k].(slots := AvailableSlots(catalog[k].slots)))
  }

  /** Filtering twice changes nothing: every slot shown already has room. */
  lemma AvailableSlotsIdempotent(slots: seq<Slot>)
    ensures AvailableSlots(AvailableSlots(slots)) == AvailableSlots(slots)
  {
    var r := AvailableSlots(slots);
    FilterKeepsAll(r, HasSpareCapacity);
  }

  /** Filtering a sequence whose elements all pass returns it unchanged. */
  lemma {:induction false} FilterKeepsAll(s: seq<Slot>, p: Slot -> bool)
    requires forall x :: x in s ==> p(x)
    ensures Filter(s, p) == s
  {
    if s != [] {
      FilterKeepsAll(s[1..], p);
    }
  }
}
