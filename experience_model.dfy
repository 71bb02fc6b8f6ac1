/**
 * The Experience document and its embedded Slot sub-documents: the fields,
 * their `required` rules, enums and defaults, and the cast that the schema
 * applies to incoming data before a document is stored.
 */
module ExperienceModel {
  import opened Common
  import opened Text

  /** A document id (an ObjectId). */
  type ExperienceId = nat

  /** A bookable slot. `date` is the calendar date, times are strings such as "09:00". */
  datatype Slot = Slot(
    date: Timestamp,
    startTime: string,
    endTime: string,
    maxParticipants: int,
    bookedParticipants: int,
    price: real)

  datatype Category = Adventure | Cultural | Food | Nature | Urban

  datatype Difficulty = Easy | Moderate | Difficult

  datatype Image = Image(url: string, alt: Option<string>)

  /** Every field of an Experience except its slots. */
  datatype ExperienceInfo = ExperienceInfo(
    id: ExperienceId,
    title: string,
    description: string,
    category: Category,
    location: string,
    images: seq<Image>,
    duration: real,
    difficulty: Difficulty,
    includes: seq<string>,
    excludes: seq<string>,
    requirements: seq<string>,
    rating: real,
    reviewCount: int,
    featured: bool)

  datatype Experience = Experience(info: ExperienceInfo, slots: seq<Slot>)

  /** The validated top-level paths of an Experience. */
  datatype ExperiencePath = TitlePath | DescriptionPath | CategoryPath | LocationPath | DurationPath | DifficultyPath

  /** A path that failed validation: a top-level field, an image's url, or a field of the `index`-th slot. */
  datatype FieldError = Field(path: ExperiencePath) | ImageUrl(index: nat) | SlotPath(index: nat, field: SlotField)

  function CategoryName(c: Category): string
  {
    match c
    case Adventure => "Adventure"
    case Cultural => "Cultural"
    case Food => "Food"
    case Nature => "Nature"
    case Urban => "Urban"
  }

  /** The category enum: exactly the five names are accepted. */
  function ParseCategory(s: string): (r: Option<Category>)
    ensures r.Some? <==> s in {"Adventure", "Cultural", "Food", "Nature", "Urban"}
    ensures r.Some? ==> CategoryName(r.value) == s
  {
    if s == "Adventure" then Some(Adventure)
    else if s == "Cultural" then Some(Cultural)
    else if s == "Food" then Some(Food)
    else if s == "Nature" then Some(Nature)
    else if s == "Urban" then Some(Urban)
    else None
  }

  function DifficultyName(d: Difficulty): string
  {
    match d
    case Easy => "Easy"
    case Moderate => "Moderate"
    case Difficult => "Difficult"
  }

  /** The difficulty enum: exactly the three names are accepted. */
  function ParseDifficulty(s: string): (r: Option<Difficulty>)
    ensures r.Some? <==> s in {"Easy", "Moderate", "Difficult"}
    ensures r.Some? ==> DifficultyName(r.value) == s
  {
    if s == "Easy" then Some(Easy)
    else if s == "Moderate" then Some(Moderate)
    else if s == "Difficult" then Some(Difficult)
    else None
  }

  /** Both enums round-trip through their names. */
  lemma EnumNamesRoundTrip(c: Category, d: Difficulty)
    ensures ParseCategory(CategoryName(c)) == Some(c)
    ensures ParseDifficulty(DifficultyName(d)) == Some(d)
  {
  }

  /** Slot data as it arrives, before the schema is applied. */
  datatype SlotDraft = SlotDraft(
    date: Option<Timestamp>,
    startTime: Option<string>,
    endTime: Option<string>,
    maxParticipants: Option<int>,
    bookedParticipants: Option<int>,
    price: Option<real>)

  /** A slot the schema would accept as stored. */
  predicate ValidSlot(s: Slot)
  {
    s.startTime != "" && s.endTime != ""
  }

  /** The validated paths of a Slot. */
  datatype SlotField = DateField | StartTimeField | EndTimeField | MaxParticipantsField | PriceField

  const AllSlotFields: set<SlotField> := {DateField, StartTimeField, EndTimeField, MaxParticipantsField, PriceField}

  /** Whether one slot path passes its `required` validator. */
  predicate SlotFieldOk(d: SlotDraft, f: SlotField)
  {
    match f
    case DateField => d.date.Some?
    case StartTimeField => IsPresent(d.startTime)
    case EndTimeField => IsPresent(d.endTime)
    case MaxParticipantsField => d.maxParticipants.Some?
    case PriceField => d.price.Some?
  }

  predicate SlotDraftOk(d: SlotDraft)
  {
    d.date.Some? && IsPresent(d.startTime) && IsPresent(d.endTime) && d.maxParticipants.Some? && d.price.Some?
  }

  function SlotErrors(d: SlotDraft): (errs: set<SlotField>)
    ensures errs == {} <==> SlotDraftOk(d)
  {
    var errs := set f | f in AllSlotFields && !SlotFieldOk(d, f);
    if SlotDraftOk(d) then
      assert forall f :: f in AllSlotFields ==> SlotFieldOk(d, f);
      assert forall f :: f !in errs;
      errs
    else
      assert
        || DateField in errs || StartTimeField in errs || EndTimeField in errs
        || MaxParticipantsField in errs || PriceField in errs;
      errs
  }

  /** The slot schema: five required paths; `bookedParticipants` defaults to 0. */
  function CastSlot(d: SlotDraft): (r: Result<Slot, set<SlotField>>)
    ensures r.Success? <==> SlotDraftOk(d)
    ensures r.Failure? ==> r.error != {} && forall f :: f in AllSlotFields ==> (f in r.error <==> !SlotFieldOk(d, f))
    ensures r.Success? ==>
      && ValidSlot(r.value)
      && r.value.date == d.date.value
      && r.value.startTime == d.startTime.value && r.value.endTime == d.endTime.value
      && r.value.maxParticipants == d.maxParticipants.value && r.value.price == d.price.value
      && r.value.bookedParticipants == (if d.bookedParticipants.Some? then d.bookedParticipants.value else 0)
  {
    if SlotDraftOk(d) then
      Success(Slot(d.date.value, d.startTime.value, d.endTime.value, d.maxParticipants.value,
                   if d.bookedParticipants.Some? then d.bookedParticipants.value else 0, d.price.value))
    else
      Failure(SlotErrors(d))
  }

  /** The draft a stored slot would be written back as. */
  function SlotDraftOf(s: Slot): SlotDraft
  {
    SlotDraft(Some(s.date), Some(s.startTime), Some(s.endTime), Some(s.maxParticipants),
              Some(s.bookedParticipants), Some(s.price))
  }

  /** A newly added slot with no booked-participant count starts empty. */
  lemma NewSlotStartsEmpty(d: SlotDraft)
    requires CastSlot(d).Success? && d.bookedParticipants.None?
    ensures CastSlot(d).value.bookedParticipants == 0
  {
  }

  /** Casting a valid stored slot gives it back unchanged. */
  lemma SlotCastRoundTrip(s: Slot)
    requires ValidSlot(s)
    ensures CastSlot(SlotDraftOf(s)) == Success(s)
  {
  }

  datatype ImageDraft = ImageDraft(url: Option<string>, alt: Option<string>)

  /** Experience data as it arrives, before the schema is applied. */
  datatype ExperienceDraft = ExperienceDraft(
    title: Option<string>,
    description: Option<string>,
    category: Option<string>,
    location: Option<string>,
    images: seq<ImageDraft>,
    duration: Option<real>,
    difficulty: Option<string>,
    includes: seq<string>,
    excludes: seq<string>,
    requirements: seq<string>,
    slots: seq<SlotDraft>,
    rating: Option<real>,
    reviewCount: Option<int>,
    featured: Option<bool>)

  /** The longest title the schema accepts, in UTF-16 code units after trimming. */
  const MaxTitleLength := 100

  /** An experience the schema would accept as stored. */
  predicate ValidExperience(e: Experience)
  {
    && e.info.title != "" && Trim(e.info.title) == e.info.title && Utf16Length(e.info.title) <= MaxTitleLength
    && e.info.description != "" && e.info.location != ""
    && (forall i :: 0 <= i < |e.info.images| ==> e.info.images[i].url != "")
    && (forall i :: 0 <= i < |e.slots| ==> ValidSlot(e.slots[i]))
  }

  /** The title after the `trim` setter, if one was given. */
  function TrimmedTitle(d: ExperienceDraft): Option<string>
  {
    if d.title.Some? then Some(Trim(d.title.value)) else None
  }

  predicate TitleOk(d: ExperienceDraft)
  {
    IsPresent(TrimmedTitle(d)) && Utf16Length(TrimmedTitle(d).value) <= MaxTitleLength
  }

  /**
   * `maxLength` counts UTF-16 code units: a title of 60 characters from beyond the Basic
   * Multilingual Plane is 120 units long and is refused, and so is the whole draft.
   */
  lemma {:induction false} AstralTitleTooLong(d: ExperienceDraft)
    requires d.title == Some(seq(60, _ => '\U{1F600}'))
    ensures !TitleOk(d) && !DraftOk(d)
  {
    var t := d.title.value;
    assert !IsWhitespace(t[0]) && !IsWhitespace(t[|t| - 1]);
    assert TrimStart(t) == t;
    assert TrimEnd(t) == t;
    Utf16LengthAstral(t);
  }

  predicate CategoryOk(d: ExperienceDraft)
  {
    d.category.Some? && ParseCategory(d.category.value).Some?
  }

  predicate DifficultyOk(d: ExperienceDraft)
  {
    d.difficulty.None? || ParseDifficulty(d.difficulty.value).Some?
  }

  const AllPaths: set<ExperiencePath> :=
    {TitlePath, DescriptionPath, CategoryPath, LocationPath, DurationPath, DifficultyPath}

  /** Whether one top-level path passes its validators. */
  predicate PathOk(d: ExperienceDraft, p: ExperiencePath)
  {
    match p
    case TitlePath => TitleOk(d)
    case DescriptionPath => IsPresent(d.description)
    case CategoryPath => CategoryOk(d)
    case LocationPath => IsPresent(d.location)
    case DurationPath => d.duration.Some?
    case DifficultyPath => DifficultyOk(d)
  }

  /** Failing top-level paths. */
  function FieldErrors(d: ExperienceDraft): (errs: set<FieldError>)
    ensures forall e :: e in errs ==> e.Field?
  {
    set p | p in AllPaths && !PathOk(d, p) :: Field(p)
  }

  /** Failing paths inside the `images` and `slots` arrays. */
  function ElementErrors(d: ExperienceDraft): (errs: set<FieldError>)
    ensures forall e :: e in errs ==> !e.Field?
  {
    (set i | 0 <= i < |d.images| && !IsPresent(d.images[i].url) :: ImageUrl(i))
    + (set i, f | 0 <= i < |d.slots| && f in SlotErrors(d.slots[i]) :: SlotPath(i, f))
  }

  function ExperienceErrors(d: ExperienceDraft): set<FieldError>
  {
    FieldErrors(d) + ElementErrors(d)
  }

  function CastImage(d: ImageDraft): Image
  {
    Image(if d.url.Some? then d.url.value else "", d.alt)
  }

  /** Every path of the draft passes its validators. */
  predicate DraftOk(d: ExperienceDraft)
  {
    && TitleOk(d) && IsPresent(d.description) && CategoryOk(d) && IsPresent(d.location)
    && d.duration.Some? && DifficultyOk(d)
    && (forall i :: 0 <= i < |d.images| ==> IsPresent(d.images[i].url))
    && (forall i :: 0 <= i < |d.slots| ==> SlotDraftOk(d.slots[i]))
  }

  /** Validation collects no error exactly when every path passes. */
  lemma ErrorsEmptyIffOk(d: ExperienceDraft)
    ensures ExperienceErrors(d) == {} <==> DraftOk(d)
  {
    FieldErrorsEmptyIff(d);
    ElementErrorsEmptyIff(d);
    assert ExperienceErrors(d) == {} <==> FieldErrors(d) == {} && ElementErrors(d) == {};
    TopLevelPathsOk(d);
  }

  /** The six top-level paths pass exactly when their conjunction in `DraftOk` holds. */
  lemma TopLevelPathsOk(d: ExperienceDraft)
    ensures (forall p :: p in AllPaths ==> PathOk(d, p)) <==>
      && TitleOk(d) && IsPresent(d.description) && CategoryOk(d) && IsPresent(d.location)
      && d.duration.Some? && DifficultyOk(d)
  {
    if forall p :: p in AllPaths ==> PathOk(d, p) {
      assert PathOk(d, TitlePath) && PathOk(d, DescriptionPath) && PathOk(d, CategoryPath);
      assert PathOk(d, LocationPath) && PathOk(d, DurationPath) && PathOk(d, DifficultyPath);
    }
  }

  lemma FieldErrorsEmptyIff(d: ExperienceDraft)
    ensures FieldErrors(d) == {} <==> forall p :: p in AllPaths ==> PathOk(d, p)
  {
    if p :| p in AllPaths && !PathOk(d, p) {
      assert Field(p) in FieldErrors(d);
    }
  }

  lemma ElementErrorsEmptyIff(d: ExperienceDraft)
    ensures ElementErrors(d) == {} <==>
      && (forall i :: 0 <= i < |d.images| ==> IsPresent(d.images[i].url))
      && (forall i :: 0 <= i < |d.slots| ==> SlotDraftOk(d.slots[i]))
  {
    if i :| 0 <= i < |d.slots| && !SlotDraftOk(d.slots[i]) {
      var f :| f in SlotErrors(d.slots[i]);
      assert SlotPath(i, f) in ElementErrors(d);
    } else if i :| 0 <= i < |d.images| && !IsPresent(d.images[i].url) {
      assert ImageUrl(i) in ElementErrors(d);
    }
  }

  /** The top-level paths named in the error set are exactly the ones that fail. */
  lemma ErrorFields(d: ExperienceDraft)
    ensures forall p :: p in AllPaths ==> (Field(p) in ExperienceErrors(d) <==> !PathOk(d, p))
  {
    assert forall p :: Field(p) !in ElementErrors(d);
  }

  /** The images after casting each one. */
  function CastImages(images: seq<ImageDraft>): (r: seq<Image>)
    ensures |r| == |images| && forall i :: 0 <= i < |images| ==> r[i] == CastImage(images[i])
  {
    seq(|images|, i requires 0 <= i < |images| => CastImage(images[i]))
  }

  /** The slots after casting each one, for slot drafts that all pass. */
  function CastSlots(slots: seq<SlotDraft>): (r: seq<Slot>)
    requires forall i :: 0 <= i < |slots| ==> SlotDraftOk(slots[i])
    ensures |r| == |slots|
    ensures forall i :: 0 <= i < |slots| ==> Success(r[i]) == CastSlot(slots[i]) && ValidSlot(r[i])
  {
    seq(|slots|, i requires 0 <= i < |slots| => CastSlot(slots[i]).value)
  }

  /** The stored experience for a draft whose every path passes: each field cast, defaults filled in. */
  function BuildExperience(id: ExperienceId, d: ExperienceDraft): (e: Experience)
    requires DraftOk(d)
    ensures ValidExperience(e)
    ensures e.info == ExperienceInfo(
      id, Trim(d.title.value), d.description.value, ParseCategory(d.category.value).value,
      d.location.value, CastImages(d.images), d.duration.value,
      if d.difficulty.None? then Moderate else ParseDifficulty(d.difficulty.value).value,
      d.includes, d.excludes, d.requirements,
      if d.rating.None? then 0.0 else d.rating.value,
      if d.reviewCount.None? then 0 else d.reviewCount.value,
      d.featured == Some(true))
    ensures |e.slots| == |d.slots|
    ensures forall i :: 0 <= i < |d.slots| ==> Success(e.slots[i]) == CastSlot(d.slots[i])
  {
    TrimIdempotent(d.title.value);
    var info := ExperienceInfo(
      id, TrimmedTitle(d).value, d.description.value, ParseCategory(d.category.value).value,
      d.location.value, CastImages(d.images),
      d.duration.value,
      if d.difficulty.None? then Moderate else ParseDifficulty(d.difficulty.value).value,
      d.includes, d.excludes, d.requirements,
      if d.rating.None? then 0.0 else d.rating.value,
      if d.reviewCount.None? then 0 else d.reviewCount.value,
      d.featured == Some(true));
    Experience(info, CastSlots(d.slots))
  }

  /**
   * The experience schema. `title` is trimmed before it is checked; title, description,
   * category, location and duration are required; category and difficulty are enums;
   * difficulty defaults to Moderate, rating and reviewCount to 0, featured to false.
   */
  function CastExperience(id: ExperienceId, d: ExperienceDraft): (r: Result<Experience, set<FieldError>>)
    ensures r.Success? <==> DraftOk(d)
    ensures r.Failure? ==>
      && r.error != {}
      && (forall p :: p in AllPaths ==> (Field(p) in r.error <==> !PathOk(d, p)))
    ensures r.Success? ==> ValidExperience(r.value)
    ensures r.Success? ==>
      && r.value.info.id == id
      && r.value.info.title == Trim(d.title.value)
      && r.value.info.description == d.description.value && r.value.info.location == d.location.value
      && r.value.info.duration == d.duration.value && r.value.info.images == CastImages(d.images)
      && r.value.info.includes == d.includes && r.value.info.excludes == d.excludes
      && r.value.info.requirements == d.requirements
      && CategoryName(r.value.info.category) == d.category.value
      && r.value.info.difficulty == (if d.difficulty.None? then Moderate else ParseDifficulty(d.difficulty.value).value)
      && r.value.info.rating == (if d.rating.None? then 0.0 else d.rating.value)
      && r.value.info.reviewCount == (if d.reviewCount.None? then 0 else d.reviewCount.value)
      && r.value.info.featured == (d.featured == Some(true))
      && |r.value.slots| == |d.slots|
      && (forall i :: 0 <= i < |d.slots| ==> Success(r.value.slots[i]) == CastSlot(d.slots[i]))
  {
    ErrorsEmptyIffOk(d);
    ErrorFields(d);
    if DraftOk(d) then
      Success(BuildExperience(id, d))
    else
      Failure(ExperienceErrors(d))
  }
}
