/**
 * The customer booking wizard: four steps (trip details, location, add-ons,
 * contact and review), a location list filtered by tour type and duration,
 * a selected location that falls back to the first match, per-step
 * validation, and a submission that writes one booking record.
 *
 * The pure part (filtering, reselection, validation, the record written) is
 * stated as functions; the component's state and its event handlers form the
 * class `Wizard`.
 */
module BookingForm {
  import opened Ecma
  import opened Pricing
  import opened Catalog
  import EmailAddress

  datatype Locale = Th | En

  datatype FormState = FormState(
    date: string,
    time: string,
    partySize: int,
    duration: Duration,
    tourType: string,
    locationId: string,
    addons: Addons,
    contactName: string,
    contactEmail: string,
    notes: string,
    locale: Locale)

  datatype Status = Idle | Submitting | Success | Error

  datatype BaseSource = FromLocation | Fallback

  datatype LocationBase = LocationBase(basePerPerson: int, baseSource: BaseSource)

  datatype RecordPrice = RecordPrice(base: int, addons: int, total: int, basePerPerson: int, baseSource: BaseSource)

  /** The document written to the `bookings` collection (without its
      server-side `createdAt` stamp). */
  datatype BookingRecord = BookingRecord(
    date: string,
    time: string,
    partySize: int,
    duration: Duration,
    tourType: string,
    locationId: string,
    addons: Addons,
    price: RecordPrice,
    contactName: string,
    contactEmail: string,
    notes: string,
    locale: Locale)

  /** `STEPS.length - 1`. */
  const LastStepIndex := 3

  const NoAddons := Addons(false, false, false)

  /** `defaultState`. */
  const DefaultState := FormState("", "", 2, Full, SeedTourTypeIds[0], SeedLocationIds[0], NoAddons, "", "", "", En)

  const MinPartySize := 1
  const MaxPartySize := 20

  const SuccessMessage := "Submission received. Our team will contact you within 24 hours."
  const FailureMessage := "Submission failed. Please try again."

  // ---------------------------------------------------------------------------
  // Derived values

  /** `getLocationBasePrice`: the location's own finite, non-negative rate for
      the duration, otherwise the fallback rate of the duration. */
  function LocationBasePrice(location: Option<Location>, duration: Duration): (r: LocationBase)
    ensures r.basePerPerson >= 0
    ensures r.baseSource == FromLocation <==>
      location.Some? && duration in location.value.pricePerPerson
      && location.value.pricePerPerson[duration].Finite? && location.value.pricePerPerson[duration].value >= 0
    ensures r.baseSource == FromLocation ==> r.basePerPerson == location.value.pricePerPerson[duration].value
    ensures r.baseSource == Fallback ==> r.basePerPerson == BasePrice(duration)
  {
    if location.Some? && duration in location.value.pricePerPerson then
      match location.value.pricePerPerson[duration]
      case Finite(price) =>
        if price >= 0 then LocationBase(price, FromLocation) else LocationBase(BasePrice(duration), Fallback)
      case _ => LocationBase(BasePrice(duration), Fallback)
    else LocationBase(BasePrice(duration), Fallback)
  }

  predicate Offers(location: Location, tourType: string, duration: Duration) {
    tourType in location.tourTypeIds && duration in location.availableDurations
  }

  /** `filteredLocations`: the locations, in catalog order, that offer both
      the tour type and the duration. */
  function FilteredLocations(locations: seq<Location>, tourType: string, duration: Duration): (r: seq<Location>)
    ensures IsSubsequence(r, locations)
    ensures forall i :: 0 <= i < |r| ==> Offers(r[i], tourType, duration)
    ensures forall i :: 0 <= i < |locations| && Offers(locations[i], tourType, duration) ==> locations[i] in r
    ensures forall l :: Count(r, l) == if Offers(l, tourType, duration) then Count(locations, l) else 0
  {
    var offers := (l: Location) => Offers(l, tourType, duration);
    FilterIsSubsequence(locations, offers);
    FilterCountAll(locations, offers);
    Filter(locations, offers)
  }

  /** The location id kept after the filter changes: the chosen id when a
      filtered location has it, otherwise the first filtered location, and ""
      when nothing matches. */
  function ReselectLocation(filtered: seq<Location>, chosen: string): (r: string)
    ensures HasLocation(filtered, chosen) ==> r == chosen
    ensures !HasLocation(filtered, chosen) && filtered != [] ==> r == filtered[0].id
    ensures filtered == [] ==> r == ""
    ensures filtered != [] ==> HasLocation(filtered, r)
  {
    if HasLocation(filtered, chosen) then chosen
    else if filtered == [] then ""
    else filtered[0].id
  }

  /** `currentLocationId`: the chosen location while the filter offers it,
      else the first offered location, else "". */
  function CurrentLocationId(form: FormState, locations: seq<Location>): (id: string)
    ensures var filtered := FilteredLocations(locations, form.tourType, form.duration);
      && (HasLocation(filtered, form.locationId) ==> id == form.locationId)
      && (!HasLocation(filtered, form.locationId) && filtered != [] ==> id == filtered[0].id)
      && (filtered == [] ==> id == "")
  {
    ReselectLocation(FilteredLocations(locations, form.tourType, form.duration), form.locationId)
  }

  /** `selectedLocationBase`: the current location's own rate for the
      duration when it has a usable one, else the fallback rate. */
  function SelectedBase(form: FormState, locations: seq<Location>): (r: LocationBase)
    ensures r.basePerPerson >= 0
    ensures r.baseSource == FromLocation ==> exists i | 0 <= i < |locations| ::
      && locations[i].id == CurrentLocationId(form, locations)
      && form.duration in locations[i].pricePerPerson
      && locations[i].pricePerPerson[form.duration] == Finite(r.basePerPerson)
    ensures !HasLocation(locations, CurrentLocationId(form, locations)) ==> r == LocationBase(BasePrice(form.duration), Fallback)
    ensures var loc := FindLocation(locations, CurrentLocationId(form, locations));
      && (r.baseSource == FromLocation <==>
            loc.Some? && form.duration in loc.value.pricePerPerson
            && loc.value.pricePerPerson[form.duration].Finite? && loc.value.pricePerPerson[form.duration].value >= 0)
      && (r.baseSource == FromLocation ==> r.basePerPerson == loc.value.pricePerPerson[form.duration].value)
      && (r.baseSource == Fallback ==> r.basePerPerson == BasePrice(form.duration))
  {
    LocationBasePrice(FindLocation(locations, CurrentLocationId(form, locations)), form.duration)
  }

  /** `breakdown`: the selected rate for the party plus the add-ons. */
  function Breakdown(form: FormState, locations: seq<Location>): (r: PriceBreakdown)
    ensures r.base == SelectedBase(form, locations).basePerPerson * EffectivePartySize(form.partySize)
    ensures r.total == r.base + r.addons && r.addons >= 0
    ensures var p := EffectivePartySize(form.partySize);
      r.addons == (if form.addons.guide then GuidePrice * p else 0)
        + (if form.addons.meals then MealsPrice * p else 0)
        + (if form.addons.pickup then PickupPrice else 0)
    ensures |r.lines| == 4 && LinesTotal(r.lines) == r.total && r.lines[0].amount == r.base
  {
    CalculatePrice(PricingInput(form.duration, SelectedBase(form, locations).basePerPerson as real, form.partySize, form.addons))
  }

  /** The party-size field: `Number(input)`, rounded and clamped into 1..20;
      text that is not a finite number gives 1. */
  function PartySizeFromInput(input: string): (r: int)
    ensures MinPartySize <= r <= MaxPartySize
    ensures ToFiniteNumber(input).None? ==> r == 1
    ensures ToFiniteNumber(input).Some? ==>
      var n := Round(ToFiniteNumber(input).value);
      (MinPartySize <= n <= MaxPartySize ==> r == n) && (n < MinPartySize ==> r == MinPartySize) && (n > MaxPartySize ==> r == MaxPartySize)
  {
    match ToFiniteNumber(input)
    case None => 1
    case Some(parsed) =>
      var n := Round(parsed);
      if n > MaxPartySize then MaxPartySize else if n < MinPartySize then MinPartySize else n
  }

  /** Typing a whole number in range selects exactly that party size. */
  lemma PartySizeOfTypedNumber(n: int)
    requires MinPartySize <= n <= MaxPartySize
    ensures PartySizeFromInput(IntToString(n)) == n
  {
    ToFiniteNumberOfIntToString(n);
  }

  // ---------------------------------------------------------------------------
  // Validation

  const DateRequired := "Date is required."
  const TimeRequired := "Time is required."
  const PartySizeOutOfRange := "Party size must be between 1 and 20."
  const TourTypeRequired := "Tour type is required."
  const NoMatchingLocations := "No locations match this tour type and duration yet."
  const LocationRequired := "Please select a location."
  const ContactNameRequired := "Contact name is required."
  const InvalidEmail := "Invalid email address."

  predicate TripDetailsComplete(form: FormState) {
    form.date != "" && form.time != "" && MinPartySize <= form.partySize <= MaxPartySize && form.tourType != ""
  }

  predicate ContactComplete(form: FormState) {
    Trim(form.contactName) != "" && EmailAddress.IsValidEmail(form.contactEmail)
  }

  /** `validateStep`: the first failing check of a step, or "" when the step
      is complete.  Step 2 (add-ons) has no checks. */
  function ValidateStep(form: FormState, locations: seq<Location>, step: int): (error: string)
    ensures step == 0 ==> (error == "" <==> TripDetailsComplete(form))
    ensures step == 1 ==> (error == "" <==> FilteredLocations(locations, form.tourType, form.duration) != [] && CurrentLocationId(form, locations) != "")
    ensures step == 3 ==> (error == "" <==> ContactComplete(form))
    ensures step != 0 && step != 1 && step != 3 ==> error == ""
    ensures step == 1 && FilteredLocations(locations, form.tourType, form.duration) == [] ==> error == NoMatchingLocations
  {
    if step == 0 then
      if form.date == "" then DateRequired
      else if form.time == "" then TimeRequired
      else if form.partySize < MinPartySize || form.partySize > MaxPartySize then PartySizeOutOfRange
      else if form.tourType == "" then TourTypeRequired
      else ""
    else if step == 1 then
      var filtered := FilteredLocations(locations, form.tourType, form.duration);
      if filtered == [] then NoMatchingLocations
      else if CurrentLocationId(form, locations) == "" then LocationRequired
      else ""
    else if step == 3 then
      if Trim(form.contactName) == "" then ContactNameRequired
      else if !EmailAddress.IsValidEmail(form.contactEmail) then InvalidEmail
      else ""
    else ""
  }

  /** Which message a failing step reports: the first failing check, in the
      order date, time, party size, tour type for step 0, the match before
      the selection for step 1, and the name before the e-mail for step 3. */
  lemma ValidateStepMessages(form: FormState, locations: seq<Location>, step: int)
    ensures var error := ValidateStep(form, locations, step);
      && (step == 0 && form.date == "" ==> error == DateRequired)
      && (step == 0 && form.date != "" && form.time == "" ==> error == TimeRequired)
      && (step == 0 && form.date != "" && form.time != "" && !(MinPartySize <= form.partySize <= MaxPartySize) ==>
            error == PartySizeOutOfRange)
      && (step == 0 && form.date != "" && form.time != "" && MinPartySize <= form.partySize <= MaxPartySize && form.tourType == "" ==>
            error == TourTypeRequired)
      && (step == 1 && FilteredLocations(locations, form.tourType, form.duration) == [] ==> error == NoMatchingLocations)
      && (step == 1 && FilteredLocations(locations, form.tourType, form.duration) != [] && CurrentLocationId(form, locations) == "" ==>
            error == LocationRequired)
      && (step == 3 && AllWhitespace(form.contactName) ==> error == ContactNameRequired)
      && (step == 3 && !AllWhitespace(form.contactName) && !EmailAddress.IsValidEmail(form.contactEmail) ==>
            error == InvalidEmail)
  {
  }

  /** The steps `handleSubmit` checks, in order. */
  const SubmitSteps: seq<int> := [0, 1, 3]

  /** The first of `steps` that `fails`, searching in order. */
  function FirstWhere(steps: seq<int>, fails: int -> bool): (r: Option<int>)
    ensures r.None? <==> forall i :: 0 <= i < |steps| ==> !fails(steps[i])
    ensures r.Some? ==> exists k | 0 <= k < |steps| ::
      steps[k] == r.value && fails(r.value) && forall j | 0 <= j < k :: !fails(steps[j])
  {
    if steps == [] then None
    else if fails(steps[0]) then Some(steps[0])
    else
      var rest := FirstWhere(steps[1..], fails);
      assert forall i :: 1 <= i < |steps| ==> steps[i] == steps[1..][i - 1];
      rest
  }

  /** The first of `steps` whose validation fails. */
  function FirstFailingStep(form: FormState, locations: seq<Location>, steps: seq<int>): (r: Option<int>)
    ensures r.None? <==> forall i :: 0 <= i < |steps| ==> ValidateStep(form, locations, steps[i]) == ""
    ensures r.Some? ==> r.value in steps && ValidateStep(form, locations, r.value) != ""
  {
    if steps == [] then None
    else if ValidateStep(form, locations, steps[0]) != "" then Some(steps[0])
    else
      var rest := FirstFailingStep(form, locations, steps[1..]);
      assert forall i :: 1 <= i < |steps| ==> steps[i] == steps[1..][i - 1];
      rest
  }

  /** The validation search is the generic in-order search with "validation
      fails" as its test. */
  lemma {:induction false} FirstFailingStepIsFirstWhere(form: FormState, locations: seq<Location>, steps: seq<int>)
    ensures FirstFailingStep(form, locations, steps) == FirstWhere(steps, step => ValidateStep(form, locations, step) != "")
  {
    if steps != [] && ValidateStep(form, locations, steps[0]) == "" {
      FirstFailingStepIsFirstWhere(form, locations, steps[1..]);
    }
  }

  /** The step reported is the first failing one: every step checked before
      it passes. */
  lemma FirstFailingStepIsFirst(form: FormState, locations: seq<Location>, steps: seq<int>)
    ensures var r := FirstFailingStep(form, locations, steps);
      r.Some? ==> exists k | 0 <= k < |steps| ::
        steps[k] == r.value && forall j | 0 <= j < k :: ValidateStep(form, locations, steps[j]) == ""
  {
    FirstFailingStepIsFirstWhere(form, locations, steps);
  }

  /** The validation loop of `handleSubmit`: steps 0, 1 and 3 in order,
      stopping at the first that fails. */
  method FindFailingStep(form: FormState, locations: seq<Location>) returns (failing: Option<int>)
    ensures failing == FirstFailingStep(form, locations, SubmitSteps)
  {
    var i := 0;
    while i < |SubmitSteps|
      invariant 0 <= i <= |SubmitSteps|
      invariant FirstFailingStep(form, locations, SubmitSteps) == FirstFailingStep(form, locations, SubmitSteps[i..])
    {
      var step := SubmitSteps[i];
      if ValidateStep(form, locations, step) != "" {
        return Some(step);
      }
      assert SubmitSteps[i..][1..] == SubmitSteps[i + 1..];
      i := i + 1;
    }
    return None;
  }

  /** The record `handleSubmit` writes: the form, the selected location, and
      the price as shown. */
  function SubmittedRecord(form: FormState, locations: seq<Location>): (record: BookingRecord)
    ensures record.locationId == CurrentLocationId(form, locations)
    ensures record.price.total == Breakdown(form, locations).total == record.price.base + record.price.addons
    ensures record.price.basePerPerson == SelectedBase(form, locations).basePerPerson
    ensures && record.date == form.date && record.time == form.time && record.partySize == form.partySize
            && record.duration == form.duration && record.tourType == form.tourType && record.addons == form.addons
            && record.contactName == form.contactName && record.contactEmail == form.contactEmail
            && record.notes == form.notes && record.locale == form.locale
  {
    var base := SelectedBase(form, locations);
    var breakdown := Breakdown(form, locations);
    BookingRecord(form.date, form.time, form.partySize, form.duration, form.tourType,
      CurrentLocationId(form, locations), form.addons,
      RecordPrice(breakdown.base, breakdown.addons, breakdown.total, base.basePerPerson, base.baseSource),
      form.contactName, form.contactEmail, form.notes, form.locale)
  }

  /** Once every submit step validates, the record names a location that
      offers the chosen tour type and duration, and its total is the base for
      the party plus the add-ons. */
  lemma SubmittedRecordIsConsistent(form: FormState, locations: seq<Location>)
    requires FirstFailingStep(form, locations, SubmitSteps).None?
    ensures var record := SubmittedRecord(form, locations);
      && MinPartySize <= record.partySize <= MaxPartySize
      && Trim(record.contactName) != ""
      && EmailAddress.IsValidEmail(record.contactEmail)
      && record.locationId != ""
      && (exists i | 0 <= i < |locations| :: locations[i].id == record.locationId && Offers(locations[i], form.tourType, form.duration))
      && record.price.total == record.price.base + record.price.addons
      && record.price.base == record.price.basePerPerson * record.partySize
  {
    assert ValidateStep(form, locations, SubmitSteps[0]) == "";
    assert ValidateStep(form, locations, SubmitSteps[1]) == "";
    assert ValidateStep(form, locations, SubmitSteps[2]) == "";
    SelectionFollowsFilter(form, locations);
    SubmittedPriceIsConsistent(form, locations);
  }

  /** The stored price splits into base and add-ons, and the base is the
      recorded per-person rate times the party. */
  lemma SubmittedPriceIsConsistent(form: FormState, locations: seq<Location>)
    requires MinPartySize <= form.partySize
    ensures var price := SubmittedRecord(form, locations).price;
      && price.total == price.base + price.addons
      && price.base == price.basePerPerson * form.partySize
  {
    var rate := SelectedBase(form, locations).basePerPerson;
    assert PerPersonRate(rate as real) == rate;
  }

  /** Switching the tour type or duration keeps the chosen location when it
      still matches, and otherwise moves to the first match, so the selection
      always names a listed location when one exists. */
  lemma SelectionFollowsFilter(form: FormState, locations: seq<Location>)
    ensures var filtered := FilteredLocations(locations, form.tourType, form.duration);
      var id := CurrentLocationId(form, locations);
      (filtered == [] ==> id == "")
      && (filtered != [] ==> exists i | 0 <= i < |locations| :: locations[i].id == id && Offers(locations[i], form.tourType, form.duration))
  {
    var filtered := FilteredLocations(locations, form.tourType, form.duration);
    var id := CurrentLocationId(form, locations);
    if filtered != [] {
      var k :| 0 <= k < |filtered| && filtered[k].id == id;
      assert Offers(filtered[k], form.tourType, form.duration);
      var j :| 0 <= j < |locations| && locations[j] == filtered[k];
    }
  }

  // ---------------------------------------------------------------------------
  // Step cursor

  /** The step, the per-step error map and the status banner. */
  datatype Cursor = Cursor(step: int, errors: map<int, string>, status: Status, message: string)

  predicate ValidCursor(c: Cursor) {
    && 0 <= c.step <= LastStepIndex
    && forall k :: k in c.errors ==> (k == 0 || k == 1 || k == 3) && c.errors[k] != ""
  }

  /** A submit that stops at a failing step leaves a valid cursor. */
  lemma FailedSubmitKeepsValid(c: Cursor, step: int, error: string)
    requires ValidCursor(c) && step in SubmitSteps && error != ""
    ensures ValidCursor(Cursor(step, c.errors[step := error], Error, error))
  {
  }

  /** `goNextStep` given the current step's validation result: record the
      error and stay, or clear the step's error and move on (never past the
      last step). */
  function NextCursor(c: Cursor, error: string): (r: Cursor)
    ensures error != "" ==> r.step == c.step && r.status == Error && r.message == error && r.errors == c.errors[c.step := error]
    ensures error == "" ==> r.step == Min(LastStepIndex, c.step + 1) && r.status == Idle && r.message == ""
    ensures error == "" ==> r.errors.Keys == c.errors.Keys - {c.step}
    ensures error == "" ==> forall s :: s in r.errors ==> r.errors[s] == c.errors[s]
  {
    if error != "" then Cursor(c.step, c.errors[c.step := error], Error, error)
    else Cursor(Min(LastStepIndex, c.step + 1), c.errors - {c.step}, Idle, "")
  }

  /** `goBackStep`. */
  function BackCursor(c: Cursor): (r: Cursor)
    ensures r.step == Max(0, c.step - 1) && r.errors == c.errors && r.status == Idle && r.message == ""
  {
    Cursor(Max(0, c.step - 1), c.errors, Idle, "")
  }

  function Min(a: int, b: int): int { if a <= b then a else b }
  function Max(a: int, b: int): int { if a >= b then a else b }

  /** Moving forward with a step's own validation result keeps the cursor
      valid: the step stays within 0..3 and errors are only ever recorded
      for the validated steps. */
  lemma NextCursorKeepsValid(c: Cursor, form: FormState, locations: seq<Location>)
    requires ValidCursor(c)
    ensures ValidCursor(NextCursor(c, ValidateStep(form, locations, c.step)))
  {
  }

  /** A step that validates is left behind; one that does not holds the
      wizard in place with its message shown. */
  lemma NextCursorAdvancesOnlyWhenValid(c: Cursor, form: FormState, locations: seq<Location>)
    requires ValidCursor(c) && c.step < LastStepIndex
    ensures var error := ValidateStep(form, locations, c.step);
      var r := NextCursor(c, error);
      (r.step == c.step + 1 <==> error == "") && (r.step == c.step <==> error != "")
  {
  }

  // ---------------------------------------------------------------------------
  // The component

  class Wizard {
    var tourTypeIds: seq<string>
    var locations: seq<Location>
    var form: FormState
    var currentStep: int
    var stepErrors: map<int, string>
    var status: Status
    var message: string

    ghost predicate Valid()
      reads this
    {
      && ValidCursor(Cursor(currentStep, stepErrors, status, message))
      && MinPartySize <= form.partySize <= MaxPartySize
    }

    ghost function CursorOf(): Cursor
      reads this
    {
      Cursor(currentStep, stepErrors, status, message)
    }

    /** The initial state: the seed catalog (already normalised) and
        `defaultState`. */
    constructor (seedLocations: seq<Location>)
      ensures Valid()
      ensures tourTypeIds == SeedTourTypeIds && locations == seedLocations && form == DefaultState
      ensures currentStep == 0 && stepErrors == map[] && status == Idle && message == ""
    {
      tourTypeIds := SeedTourTypeIds;
      locations := seedLocations;
      form := DefaultState;
      currentStep := 0;
      stepErrors := map[];
      status := Idle;
      message := "";
    }

    /** The catalog-load effect (and its fallback when loading fails): an
        empty tour-type list falls back to the seed ids; the chosen tour type
        is kept when still listed, otherwise the first listed one; the
        location is reselected against the new list. */
    method LoadCatalog(loadedTourTypeIds: seq<string>, normalizedLocations: seq<Location>)
      requires Valid()
      modifies this
      ensures Valid()
      ensures tourTypeIds == (if |loadedTourTypeIds| > 0 then loadedTourTypeIds else SeedTourTypeIds)
      ensures locations == normalizedLocations
      ensures HasTourType(tourTypeIds, old(form.tourType)) ==> form.tourType == old(form.tourType)
      ensures !HasTourType(tourTypeIds, old(form.tourType)) ==> form.tourType == tourTypeIds[0]
      ensures form.locationId == ReselectLocation(FilteredLocations(locations, form.tourType, form.duration), old(form.locationId))
      ensures form == old(form).(tourType := form.tourType, locationId := form.locationId)
      ensures CursorOf() == old(CursorOf())
    {
      var nextTours := if |loadedTourTypeIds| > 0 then loadedTourTypeIds else SeedTourTypeIds;
      var nextTourType := if HasTourType(nextTours, form.tourType) then form.tourType else nextTours[0];
      var nextFiltered := FilteredLocations(normalizedLocations, nextTourType, form.duration);
      var nextLocationId := ReselectLocation(nextFiltered, form.locationId);
      tourTypeIds := nextTours;
      locations := normalizedLocations;
      form := form.(tourType := nextTourType, locationId := nextLocationId);
    }

    /** `clearStepError`. */
    method ClearStepError(step: int)
      requires Valid()
      modifies this
      ensures Valid()
      ensures stepErrors == old(stepErrors) - {step}
      ensures form == old(form) && currentStep == old(currentStep) && status == old(status) && message == old(message)
      ensures tourTypeIds == old(tourTypeIds) && locations == old(locations)
    {
      stepErrors := stepErrors - {step};
    }

    method SetDate(date: string)
      requires Valid()
      modifies this
      ensures Valid()
      ensures form == old(form).(date := date) && stepErrors == old(stepErrors) - {0}
      ensures currentStep == old(currentStep) && status == old(status) && message == old(message)
      ensures tourTypeIds == old(tourTypeIds) && locations == old(locations)
    {
      ClearStepError(0);
      form := form.(date := date);
    }

    method SetTime(time: string)
      requires Valid()
      modifies this
      ensures Valid()
      ensures form == old(form).(time := time) && stepErrors == old(stepErrors) - {0}
      ensures currentStep == old(currentStep) && status == old(status) && message == old(message)
      ensures tourTypeIds == old(tourTypeIds) && locations == old(locations)
    {
      ClearStepError(0);
      form := form.(time := time);
    }

    /** The party-size field's change handler. */
    method SetPartySize(input: string)
      requires Valid()
      modifies this
      ensures Valid()
      ensures form == old(form).(partySize := PartySizeFromInput(input)) && stepErrors == old(stepErrors) - {0}
      ensures currentStep == old(currentStep) && status == old(status) && message == old(message)
      ensures tourTypeIds == old(tourTypeIds) && locations == old(locations)
    {
      ClearStepError(0);
      form := form.(partySize := PartySizeFromInput(input));
    }

    /** `handleTourTypeChange`. */
    method HandleTourTypeChange(tourType: string)
      requires Valid()
      modifies this
      ensures Valid()
      ensures form == old(form).(tourType := tourType,
        locationId := ReselectLocation(FilteredLocations(locations, tourType, old(form.duration)), old(form.locationId)))
      ensures stepErrors == old(stepErrors) - {0} - {1}
      ensures currentStep == old(currentStep) && status == old(status) && message == old(message)
      ensures tourTypeIds == old(tourTypeIds) && locations == old(locations)
    {
      ClearStepError(0);
      ClearStepError(1);
      var nextFiltered := FilteredLocations(locations, tourType, form.duration);
      form := form.(tourType := tourType, locationId := ReselectLocation(nextFiltered, form.locationId));
    }

    /** `handleDurationChange`. */
    method HandleDurationChange(duration: Duration)
      requires Valid()
      modifies this
      ensures Valid()
      ensures form == old(form).(duration := duration,
        locationId := ReselectLocation(FilteredLocations(locations, old(form.tourType), duration), old(form.locationId)))
      ensures stepErrors == old(stepErrors) - {0} - {1}
      ensures currentStep == old(currentStep) && status == old(status) && message == old(message)
      ensures tourTypeIds == old(tourTypeIds) && locations == old(locations)
    {
      ClearStepError(0);
      ClearStepError(1);
      var nextFiltered := FilteredLocations(locations, form.tourType, duration);
      form := form.(duration := duration, locationId := ReselectLocation(nextFiltered, form.locationId));
    }

    /** A location card's select handler. */
    method SelectLocation(id: string)
      requires Valid()
      modifies this
      ensures Valid()
      ensures form == old(form).(locationId := id) && stepErrors == old(stepErrors) - {1}
      ensures currentStep == old(currentStep) && status == old(status) && message == old(message)
      ensures tourTypeIds == old(tourTypeIds) && locations == old(locations)
    {
      ClearStepError(1);
      form := form.(locationId := id);
    }

    /** The add-on checkboxes; they clear no step error. */
    method SetAddons(addons: Addons)
      requires Valid()
      modifies this
      ensures Valid()
      ensures form == old(form).(addons := addons) && stepErrors == old(stepErrors)
      ensures currentStep == old(currentStep) && status == old(status) && message == old(message)
      ensures tourTypeIds == old(tourTypeIds) && locations == old(locations)
    {
      form := form.(addons := addons);
    }

    method SetContactName(name: string)
      requires Valid()
      modifies this
      ensures Valid()
      ensures form == old(form).(contactName := name) && stepErrors == old(stepErrors) - {3}
      ensures currentStep == old(currentStep) && status == old(status) && message == old(message)
      ensures tourTypeIds == old(tourTypeIds) && locations == old(locations)
    {
      ClearStepError(3);
      form := form.(contactName := name);
    }

    method SetContactEmail(email: string)
      requires Valid()
      modifies this
      ensures Valid()
      ensures form == old(form).(contactEmail := email) && stepErrors == old(stepErrors) - {3}
      ensures currentStep == old(currentStep) && status == old(status) && message == old(message)
      ensures tourTypeIds == old(tourTypeIds) && locations == old(locations)
    {
      ClearStepError(3);
      form := form.(contactEmail := email);
    }

    /** The notes field; it clears no step error. */
    method SetNotes(notes: string)
      requires Valid()
      modifies this
      ensures Valid()
      ensures form == old(form).(notes := notes) && stepErrors == old(stepErrors)
      ensures currentStep == old(currentStep) && status == old(status) && message == old(message)
      ensures tourTypeIds == old(tourTypeIds) && locations == old(locations)
    {
      form := form.(notes := notes);
    }

    /** `goNextStep`. */
    method GoNextStep()
      requires Valid()
      modifies this
      ensures Valid()
      ensures CursorOf() == NextCursor(old(CursorOf()), ValidateStep(form, locations, old(currentStep)))
      ensures form == old(form) && tourTypeIds == old(tourTypeIds) && locations == old(locations)
    {
      var error := ValidateStep(form, locations, currentStep);
      NextCursorKeepsValid(CursorOf(), form, locations);
      if error != "" {
        stepErrors := stepErrors[currentStep := error];
        status := Error;
        message := error;
        return;
      }
      ClearStepError(currentStep);
      status := Idle;
      message := "";
      currentStep := Min(LastStepIndex, currentStep + 1);
    }

    /** `goBackStep`. */
    method GoBackStep()
      requires Valid()
      modifies this
      ensures Valid()
      ensures CursorOf() == BackCursor(old(CursorOf()))
      ensures form == old(form) && tourTypeIds == old(tourTypeIds) && locations == old(locations)
    {
      currentStep := Max(0, currentStep - 1);
      status := Idle;
      message := "";
    }

    /** `handleSubmit`.  Before the last step it behaves as `goNextStep`.  On
        the last step it validates steps 0, 1 and 3 in order and jumps to the
        first that fails; when all pass it returns the record to write, and
        `stored` is whether the write succeeded. */
    method HandleSubmit(stored: bool) returns (written: Option<BookingRecord>)
      requires Valid()
      modifies this
      ensures Valid()
      ensures tourTypeIds == old(tourTypeIds) && locations == old(locations)
      ensures old(currentStep) < LastStepIndex ==>
        written == None && form == old(form)
        && CursorOf() == NextCursor(old(CursorOf()), ValidateStep(form, locations, old(currentStep)))
      ensures old(currentStep) == LastStepIndex && FirstFailingStep(old(form), locations, SubmitSteps).Some? ==>
        var step := FirstFailingStep(old(form), locations, SubmitSteps).value;
        var error := ValidateStep(old(form), locations, step);
        written == None && form == old(form)
        && CursorOf() == Cursor(step, old(stepErrors)[step := error], Error, error)
      ensures old(currentStep) == LastStepIndex && FirstFailingStep(old(form), locations, SubmitSteps).None? ==>
        written == Some(SubmittedRecord(old(form), locations))
        && (stored ==> form == DefaultState && CursorOf() == Cursor(0, map[], Success, SuccessMessage))
        && (!stored ==> form == old(form) && CursorOf() == Cursor(old(currentStep), old(stepErrors), Error, FailureMessage))
    {
      if currentStep < LastStepIndex {
        GoNextStep();
        return None;
      }
      written := SubmitLastStep(stored);
    }

    /** `handleSubmit` on the last step. */
    method SubmitLastStep(stored: bool) returns (written: Option<BookingRecord>)
      requires Valid() && currentStep == LastStepIndex
      modifies this
      ensures Valid()
      ensures tourTypeIds == old(tourTypeIds) && locations == old(locations)
      ensures FirstFailingStep(old(form), locations, SubmitSteps).Some? ==>
        var step := FirstFailingStep(old(form), locations, SubmitSteps).value;
        var error := ValidateStep(old(form), locations, step);
        written == None && form == old(form)
        && CursorOf() == Cursor(step, old(stepErrors)[step := error], Error, error)
      ensures FirstFailingStep(old(form), locations, SubmitSteps).None? ==>
        written == Some(SubmittedRecord(old(form), locations))
        && (stored ==> form == DefaultState && CursorOf() == Cursor(0, map[], Success, SuccessMessage))
        && (!stored ==> form == old(form) && CursorOf() == Cursor(old(currentStep), old(stepErrors), Error, FailureMessage))
    {
      status := Idle;
      message := "";
      var failing := FindFailingStep(form, locations);
      if failing.Some? {
        var step := failing.value;
        var error := ValidateStep(form, locations, step);
        FailedSubmitKeepsValid(CursorOf(), step, error);
        stepErrors := stepErrors[step := error];
        currentStep := step;
        status := Error;
        message := error;
        return None;
      }
      written := Some(SubmittedRecord(form, locations));
      FinishSubmit(stored);
    }

    /** The end of `handleSubmit` once every step validates: on a stored
        booking the wizard resets with the success message, otherwise it
        stays put with the failure message. */
    method FinishSubmit(stored: bool)
      requires Valid()
      modifies this
      ensures Valid()
      ensures tourTypeIds == old(tourTypeIds) && locations == old(locations)
      ensures stored ==> form == DefaultState && CursorOf() == Cursor(0, map[], Success, SuccessMessage)
      ensures !stored ==> form == old(form) && CursorOf() == Cursor(old(currentStep), old(stepErrors), Error, FailureMessage)
    {
      status := Submitting;
      if stored {
        status := Success;
        message := SuccessMessage;
        form := DefaultState;
        stepErrors := map[];
        currentStep := 0;
      } else {
        status := Error;
        message := FailureMessage;
      }
    }
  }
}
