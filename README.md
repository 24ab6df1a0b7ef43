# Tour booking site: a verified model of its booking and catalog logic

This project models the logic core of a tour-booking web site in Dafny. A
customer books through a four-step wizard. An administrator maintains the
catalog of tour types and locations and reviews bookings. A server endpoint
e-mails a booking summary.

The model covers these parts:

- **Pricing** (`pricing.dfy`, module `Pricing`). A price breakdown comes from:
  - the duration;
  - the per-person rate, rounded;
  - the party size, clamped to at least 1;
  - three add-ons: a per-person guide, per-person meals and a per-group pickup.

  The breakdown has four lines that add up to the total.
- **Booking wizard** (`booking_form.dfy`, module `BookingForm`, class `Wizard`).
  - The location list is filtered by tour type and duration. The selected location falls back to the first match.
  - A location's own rate is used when it is a non-negative finite number; otherwise the duration's base price is used.
  - Each step is validated. Step errors are kept per step and cleared when a field of that step changes.
  - Submission checks steps 0, 1 and 3 in order and jumps to the first failing one. Otherwise it writes one booking record whose price agrees with the shown breakdown.
- **Admin catalog manager** (`admin_catalog.dfy`, module `AdminCatalog`, class `Manager`).
  - Price text is parsed as `Number` does it, then rounded, and negatives are refused.
  - The price payload holds every parsed price. It names the first required duration without one.
  - Slugs are built for upload paths.
  - The comma-separated highlights are split and trimmed.
  - Tour-type ids are de-duplicated, and check-box lists are toggled.
  - Tour types and locations are added, and the inline price editor and the image upload update the form.
- **Send-booking endpoint** (`send_booking.dfy`, module `SendBooking`).
  - The guards run in a fixed order: configuration (500), JSON, recipient and booking data (each 400).
  - The plain-text body has one line per field, with the stated defaults.
  - The provider's answer is mapped to 200 or 500.
- **Image URLs** (`image_url.dfy`, module `ImageUrl`).
  - Paths are trimmed and unquoted.
  - `http(s)` URLs and site-relative paths pass through.
  - A storage key becomes the public object URL of the `tour-images` bucket, one percent-encoded segment per `/`-separated piece.
- **Bookings table** (`bookings_table.dfy`, module `BookingsTable`, class `EmailPanel`).
  - Stored bookings are read into rows, with defaults for missing fields.
  - The table is filtered by a case-insensitive name/e-mail search and by date.
  - The per-booking e-mail button keeps its status and message in two maps keyed by booking id.

Shared modules:

- `Ecma` (`ecma.dfy`) holds the ECMAScript operations the core relies on:
  - `trim` with the full white-space set;
  - `split` and `join` on one character;
  - `includes`, and `toLowerCase` on ASCII;
  - `Math.round`;
  - `Number(text)` over decimal literals, and `String(n)`;
  - `Array.prototype.filter` and `map`, and `Array.from(new Set(..))`.
- `UriComponent` (`uri_component.dfy`) holds `encodeURIComponent`: UTF-8 bytes, then the percent-encoding of section 2.1 of RFC 3986. It also holds its decoder.
- `EmailAddress` (`email.dfy`) is the address check `^[^\s@]+@[^\s@]+\.[^\s@]+$` shared by the wizard and the endpoint.
- `Catalog` (`catalog.dfy`) holds the tour-type and location records and the seed catalog ids.

The source handles state in two ways, and the model follows it:

- Component state that event handlers update in place is a class whose methods state the whole new state.
- Everything the handlers compute from that state is a function with its properties proved as lemmas.

Database writes, e-mail delivery and storage uploads are outside the model. What they return is a parameter (`stored`, `provider`, `uploadError`, `result`), and what is written is returned to the caller.

## Model

| member | source | states |
|---|---|---|
| Ecma.Trim | lib/supabase.ts:20 | the trimmed text is empty exactly when the input is all white space; otherwise it neither starts nor ends with white space |
| Ecma.TrimIsInfix | lib/supabase.ts:20 | trimming only removes characters from the ends: the result occurs inside the input |
| Ecma.TrimStripsOnlyWhitespace | lib/supabase.ts:20 | the trimmed text sits in the input with only white space before and after it |
| Ecma.TrimKeepsAbsent | components/AdminCatalogManager.tsx:282-285 | trimming introduces no character that was not there |
| Ecma.TrimUnchanged | lib/supabase.ts:20 | a text without surrounding white space is left unchanged |
| Ecma.ToLower | components/BookingsTable.tsx:141-145 | lower-casing keeps the length and maps each character on its own |
| Ecma.ToLowerIdempotent | components/BookingsTable.tsx:141-145 | lower-casing a lower-cased text changes nothing |
| Ecma.Split | components/AdminCatalogManager.tsx:282-283 | a split has one more piece than separators, and no piece holds the separator |
| Ecma.JoinSplit | lib/supabase.ts:33-36 | joining the pieces of a split with the same separator restores the text |
| Ecma.SplitJoin | lib/supabase.ts:33-36 | splitting a join of separator-free pieces gives back the pieces |
| Ecma.LastPieceAfterSeparator | components/AdminCatalogManager.tsx:230 | `split(sep).pop()` is the text after the last separator |
| Ecma.LastPieceIsSuffix | components/AdminCatalogManager.tsx:230 | `split(sep).pop()` is a suffix of the text that starts at its beginning or right after a separator |
| Ecma.LastPieceAfterFirst | components/AdminCatalogManager.tsx:230 | a prefix up to a first separator does not change the last piece |
| Ecma.LastPieceEmpty | components/AdminCatalogManager.tsx:230 | the last piece is empty exactly when the text is empty or ends with the separator |
| Ecma.NatToString | components/AdminCatalogManager.tsx:369-376 | `String(n)` of a whole number is a non-empty run of digits with no leading zero, except "0" itself |
| Ecma.DigitsValueOfNatToString | components/AdminCatalogManager.tsx:369-376 | reading the digits of `String(n)` gives `n` back |
| Ecma.ToFiniteNumberOfIntToString | components/AdminCatalogManager.tsx:85 | `Number(String(n))` is `n` for every integer, negative ones included |
| Ecma.UnsignedDecimalOfNonNumeric | components/AdminCatalogManager.tsx:85 | a text starting with neither a digit nor a point is no decimal literal |
| Ecma.Round | components/AdminCatalogManager.tsx:89 | `Math.round` gives the integer within one half of the value, halves rounding up, and leaves integers unchanged |
| Ecma.Filter | components/BookingsTable.tsx:140 | the kept elements are exactly the input elements that satisfy the predicate |
| Ecma.FilterIsSubsequence | components/BookingsTable.tsx:140 | filtering keeps the order: the result is a sub-list of the input |
| Ecma.FilterAll | components/BookingsTable.tsx:140-148 | a predicate that holds everywhere keeps the whole list |
| Ecma.FilterCount | components/AdminCatalogManager.tsx:285 | filtering keeps every copy of a value that satisfies the predicate and none of one that does not |
| Ecma.FilterKeepsFirstIndexOrder | components/AdminCatalogManager.tsx:287 | values first seen in one order in the filtered list were first seen in that order in the input |
| Ecma.Map | lib/supabase.ts:33-36 | mapping keeps the length and applies the function to each element |
| Ecma.Dedup | components/AdminCatalogManager.tsx:286-291 | `Array.from(new Set(xs))` has no duplicates and exactly the elements of `xs` |
| Ecma.DedupIsSubsequence | components/AdminCatalogManager.tsx:286-291 | de-duplication keeps the input order: the result is a sub-list of the input |
| Ecma.FirstIndex | components/AdminCatalogManager.tsx:286-291 | the first index of a value holds it, and no earlier index does |
| Ecma.FirstIndexAppend | components/AdminCatalogManager.tsx:286-291 | appending an element does not move the first occurrence of a value already present |
| Ecma.DedupKeepsFirstOccurrenceOrder | components/AdminCatalogManager.tsx:286-291 | `Array.from(new Set(xs))` lists the values in the order of their first occurrence in `xs` |
| Ecma.DedupOfDistinct | components/AdminCatalogManager.tsx:289-291 | a list without duplicates is unchanged |
| UriComponent.Encode | lib/supabase.ts:35 | the encoding holds only unreserved characters and `%`, so no `/` |
| UriComponent.EncodeUnreserved | lib/supabase.ts:35 | a text of unreserved characters is left as it is |
| UriComponent.EncodeBlank | lib/supabase.ts:35 | a space is encoded as `%20` |
| UriComponent.DecodeEncode | lib/supabase.ts:35 | decoding the encoding of any text gives the text back |
| Pricing.EffectivePartySize | lib/pricing.ts:41 | the party size priced is at least 1, and is the given size when that is at least 1 |
| Pricing.PerPersonRate | lib/pricing.ts:42 | the rate is the per-person price rounded to the nearest integer (within one half of it), and 0 for prices below -0.5 |
| Pricing.CalculatePrice | lib/pricing.ts:40-78 | total is base plus add-ons; base is rate times party; four non-negative lines sum to the total, the first being the base |
| Pricing.LineOrderAndAmounts | lib/pricing.ts:43-76 | the lines are the rate line labelled with duration and party size, guide (600 per person), meals (300 per person) and pickup (800 once), each add-on 0 when not chosen |
| Pricing.PickupIsFlat | lib/pricing.ts:46 | the pickup line does not depend on the party size |
| Pricing.NonPositivePartyPricedAsOne | lib/pricing.ts:41 | a party size below 1 is priced as a party of one |
| Pricing.MoreAddonsNeverCheaper | lib/pricing.ts:44-47 | choosing more add-ons never lowers the total |
| Pricing.HalfDayAllAddons | lib/pricing.ts:29-47 | a half day for three at 1500 with all add-ons costs 4500 + 1800 + 900 + 800 = 8000 |
| Pricing.FullDayNoAddons | lib/pricing.ts:29-47 | a full day for two at 2500 without add-ons costs 5000 |
| Catalog.FindLocation | components/BookingForm.tsx:204-210 | `find` returns the first location with the id asked for: nothing before it has that id; none is found exactly when no location has that id |
| EmailAddress.IsValidEmailMatchesPattern | app/api/send-booking/route.ts:32-33 | the scanning check accepts exactly the texts the regular expression matches |
| EmailAddress.AcceptsPlainAddress | app/api/send-booking/route.ts:32-33 | `me@x.io` is accepted |
| EmailAddress.RejectsDomainWithoutDot | app/api/send-booking/route.ts:32-33 | `me@x` is refused: the domain needs a dot with text on both sides |
| BookingForm.LocationBasePrice | components/BookingForm.tsx:88-101 | the location's stored rate for the duration is used exactly when it is a non-negative finite number; otherwise the duration's base price; never negative |
| BookingForm.FilteredLocations | components/BookingForm.tsx:184-192 | the offered locations are, in order, exactly those listing the tour type and the duration, each with as many copies as the catalog holds |
| BookingForm.ReselectLocation | components/BookingForm.tsx:194-197 | the chosen location is kept while offered; otherwise the first offered one; "" only when none is offered |
| BookingForm.SelectionFollowsFilter | components/BookingForm.tsx:194-197 | the current location id is always one of the offered locations, or "" when none is offered |
| BookingForm.CurrentLocationId | components/BookingForm.tsx:194-197 | the chosen id when an offered location has it; otherwise the first offered location's id; "" when none is offered |
| BookingForm.SelectedBase | components/BookingForm.tsx:204-215 | the base rate is never negative; it comes from the location exactly when the current location is found and stores a finite, non-negative price for the duration, and is then that price; otherwise it is the duration's base price, marked as fallback |
| BookingForm.Breakdown | components/BookingForm.tsx:217-231 | the shown breakdown has base = selected rate x priced party size, add-ons = 600 per person for a guide + 300 per person for meals + 800 for pickup (each only when chosen), total = base + add-ons, and four lines summing to the total with the base first |
| BookingForm.PartySizeFromInput | components/BookingForm.tsx:576-579 | a typed party size is rounded and clamped to 1..20; text that is no finite number gives 1 |
| BookingForm.PartySizeOfTypedNumber | components/BookingForm.tsx:576-579 | typing a size between 1 and 20 sets exactly that size |
| BookingForm.ValidateStep | components/BookingForm.tsx:325-367 | each step's error is "" exactly when its fields are complete; steps 2 and beyond 3 never fail; step 1 without matching locations reports that no location matches |
| BookingForm.ValidateStepMessages | components/BookingForm.tsx:325-367 | a failing step reports its first failing check: date, time, party size, tour type for step 0; no match before no selection for step 1; name before e-mail for step 3 |
| BookingForm.FirstFailingStep | components/BookingForm.tsx:447-456 | no step is returned exactly when every checked step passes; a returned step is one of those checked and fails |
| BookingForm.FirstWhere | components/BookingForm.tsx:447-456 | the in-order search returns nothing exactly when no step fails, and otherwise a failing step before which every step passes |
| BookingForm.FirstFailingStepIsFirstWhere | components/BookingForm.tsx:447-456 | the validation search is the in-order search with "validation fails" as its test |
| BookingForm.FirstFailingStepIsFirst | components/BookingForm.tsx:447-456 | the step reported is the first failing one: every step checked before it passes |
| BookingForm.FindFailingStep | components/BookingForm.tsx:447-456 | the loop over steps 0, 1, 3 returns exactly the first failing step, or none |
| BookingForm.SubmittedRecord | components/BookingForm.tsx:460-480 | the record copies every form field, uses the current location id, and stores the shown breakdown (total = base + add-ons) with the selected per-person rate |
| BookingForm.SubmittedRecordIsConsistent | components/BookingForm.tsx:460-480 | once every submit step passes, the record has a party of 1 to 20, a non-blank name, a valid e-mail, a location offering the tour type and duration, and a total of base plus add-ons with base = rate x party |
| BookingForm.SubmittedPriceIsConsistent | components/BookingForm.tsx:469-475 | the stored price is the breakdown of the selected rate, and its total is base plus add-ons |
| BookingForm.FailedSubmitKeepsValid | components/BookingForm.tsx:449-453 | jumping to a failing step records its error and keeps the step state consistent |
| BookingForm.NextCursor | components/BookingForm.tsx:415-428 | an error keeps the step, records the error for it and shows it; otherwise only that step's error is removed, the other errors keep their messages, and the step advances, capped at the last |
| BookingForm.BackCursor | components/BookingForm.tsx:430-434 | going back lowers the step by one, not below 0, and clears the status |
| BookingForm.NextCursorKeepsValid | components/BookingForm.tsx:415-428 | advancing keeps the step within 0..3 and the errors on known steps |
| BookingForm.NextCursorAdvancesOnlyWhenValid | components/BookingForm.tsx:415-428 | the step advances exactly when its validation passes |
| BookingForm.Wizard.constructor | components/BookingForm.tsx:162-170 | the wizard starts at step 0 on the default form and the seed catalog |
| BookingForm.Wizard.LoadCatalog | components/BookingForm.tsx:249-278 | loaded tour types replace the seed ones when there are any; the tour type and location are reselected |
| BookingForm.Wizard.ClearStepError | components/BookingForm.tsx:314-323 | only the given step's error is removed |
| BookingForm.Wizard.SetDate | components/BookingForm.tsx:548-551 | the date changes and step 0's error is cleared |
| BookingForm.Wizard.SetTime | components/BookingForm.tsx:560-563 | the time changes and step 0's error is cleared |
| BookingForm.Wizard.SetPartySize | components/BookingForm.tsx:574-584 | the party size becomes the clamped typed value and step 0's error is cleared |
| BookingForm.Wizard.HandleTourTypeChange | components/BookingForm.tsx:369-390 | the tour type changes, the location is reselected, the errors of steps 0 and 1 are cleared |
| BookingForm.Wizard.HandleDurationChange | components/BookingForm.tsx:392-413 | the duration changes, the location is reselected, the errors of steps 0 and 1 are cleared |
| BookingForm.Wizard.SelectLocation | components/BookingForm.tsx:657-662 | the location changes and step 1's error is cleared |
| BookingForm.Wizard.SetAddons | components/BookingForm.tsx:715-720 | only the add-on flags change |
| BookingForm.Wizard.SetContactName | components/BookingForm.tsx:740-746 | the contact name changes and step 3's error is cleared |
| BookingForm.Wizard.SetContactEmail | components/BookingForm.tsx:755-761 | the contact e-mail changes and step 3's error is cleared |
| BookingForm.Wizard.SetNotes | components/BookingForm.tsx:771-773 | only the notes change |
| BookingForm.Wizard.GoNextStep | components/BookingForm.tsx:415-428 | the step state becomes `NextCursor` of the current step's validation |
| BookingForm.Wizard.GoBackStep | components/BookingForm.tsx:430-434 | the step state becomes `BackCursor` |
| BookingForm.Wizard.HandleSubmit | components/BookingForm.tsx:436-494 | before the last step it advances as `goNextStep`; on the last it jumps to the first failing step with its error and writes nothing, or writes the submitted record, then resets with the success message when stored and keeps the form with the failure message when not |
| BookingForm.Wizard.SubmitLastStep | components/BookingForm.tsx:444-494 | a failing step is shown with its error and nothing is written; otherwise the submitted record is written |
| BookingForm.Wizard.FinishSubmit | components/BookingForm.tsx:458-493 | a stored booking resets the wizard with the success message; a failed write keeps the form with the failure message |
| AdminCatalog.ParsePrice | components/AdminCatalogManager.tsx:81-94 | blank and non-finite text give no price; otherwise the rounded number when it is not negative |
| AdminCatalog.ParsePriceOfIntToString | components/AdminCatalogManager.tsx:81-94 | the text of an integer parses back to it when it is not negative |
| AdminCatalog.ParsePriceOfNaN | components/AdminCatalogManager.tsx:85-88 | "NaN" gives no price |
| AdminCatalog.ParsePriceOfInfinity | components/AdminCatalogManager.tsx:85-88 | "Infinity" gives no price |
| AdminCatalog.ParsePriceOfNegativeInfinity | components/AdminCatalogManager.tsx:85-88 | "-Infinity" gives no price |
| AdminCatalog.PricePayload | components/AdminCatalogManager.tsx:100-107 | the payload holds a duration exactly when its text parses, with the parsed non-negative price |
| AdminCatalog.PayloadUpToAll | components/AdminCatalogManager.tsx:102-107 | the loop over both durations builds exactly the payload |
| AdminCatalog.FirstMissing | components/AdminCatalogManager.tsx:109-118 | no duration is named exactly when every required one has a price; a named one is the first required duration without a price |
| AdminCatalog.PayloadError | components/AdminCatalogManager.tsx:109-120 | the error is "" exactly when every required duration has a price; otherwise it is the message naming the first required duration without one |
| AdminCatalog.BuildPricePayload | components/AdminCatalogManager.tsx:96-121 | returns the payload of every parsed price, and the message of the first required duration without a price, or "" |
| AdminCatalog.CollectPrices | components/AdminCatalogManager.tsx:100-107 | the first loop computes the payload |
| AdminCatalog.FindMissingPrice | components/AdminCatalogManager.tsx:109-120 | the second loop computes the error |
| AdminCatalog.RequiredDurations | components/AdminCatalogManager.tsx:292-294 | the required durations are the available ones, or both when none is available; never empty |
| AdminCatalog.ParsePriceOfStoredNumber | components/AdminCatalogManager.tsx:369-376 | the editor's text of a stored number parses back to it when it is a non-negative integer |
| AdminCatalog.EditorPriceRoundTrip | components/AdminCatalogManager.tsx:368-377 | opening the editor and saving gives back each stored non-negative price, and drops the others |
| AdminCatalog.EditorRoundTrip | components/AdminCatalogManager.tsx:362-411 | saving the editor unchanged rebuilds the stored payload of non-negative prices |
| AdminCatalog.SkipNonSlug | components/AdminCatalogManager.tsx:218 | skipping a run of other characters keeps the letters and digits and leaves a text that is empty or starts with a letter or digit |
| AdminCatalog.SkipNonSlugIsSuffix | components/AdminCatalogManager.tsx:218 | what is left is the input's own suffix, and every character skipped before it is outside `a-z0-9` |
| AdminCatalog.SkipNonSlugAppend | components/AdminCatalogManager.tsx:218 | skipping over `a + b` skips into `b` when all of `a` is skipped, and otherwise leaves `b` untouched after what is left of `a` |
| AdminCatalog.CollapseNonSlug | components/AdminCatalogManager.tsx:218 | the result holds only `a-z0-9-`, keeps the letters and digits in order, starts with a hyphen exactly when the input starts with another character, and has one hyphen per maximal run of other characters |
| AdminCatalog.CollapseNonSlugOfSlugChars | components/AdminCatalogManager.tsx:218 | a text of letters and digits only is left unchanged |
| AdminCatalog.CollapseNonSlugOfRun | components/AdminCatalogManager.tsx:218 | a non-empty run of other characters becomes exactly one hyphen |
| AdminCatalog.CollapseNonSlugAppend | components/AdminCatalogManager.tsx:218 | cutting the text where the cut does not fall inside a run of other characters, the result is the two results joined; with the two lemmas above this fixes the result of every input |
| AdminCatalog.CollapseNonSlugAppendAfterRun | components/AdminCatalogManager.tsx:218 | the same cut rule when the text starts with a run of other characters |
| AdminCatalog.RunStartsAfterSkip | components/AdminCatalogManager.tsx:218 | skipping a run of other characters leaves the count of the runs that follow unchanged |
| AdminCatalog.DropLeadingHyphens | components/AdminCatalogManager.tsx:219 | the result does not start with a hyphen and keeps the letters and digits |
| AdminCatalog.DropLeadingHyphensIsSuffix | components/AdminCatalogManager.tsx:219 | the result is the input's own suffix and every character removed before it is a hyphen |
| AdminCatalog.DropTrailingHyphens | components/AdminCatalogManager.tsx:219 | the result does not end with a hyphen, is a prefix, and keeps the letters and digits |
| AdminCatalog.Slugify | components/AdminCatalogManager.tsx:215-220 | a slug has at most 60 characters, only `a-z0-9-`, and no leading hyphen |
| AdminCatalog.SlugifyKeepsAlphanumerics | components/AdminCatalogManager.tsx:215-220 | the slug's letters and digits are a prefix of the lower-cased input's, and all of them when the slug is shorter than 60; it is empty only when the input has none; it ends in a hyphen only when cut at 60 |
| AdminCatalog.StrippedKeepsAlphanumerics | components/AdminCatalogManager.tsx:216-219 | before the cut the slug holds exactly the input's lower-cased letters and digits, starts with one of them, and is empty exactly when there are none |
| AdminCatalog.FileExtension | components/AdminCatalogManager.tsx:230 | the extension is the text after the last dot of the file name (the whole name when it has none); "jpg" when that is empty; never empty and never holding a dot |
| AdminCatalog.UploadBaseName | components/AdminCatalogManager.tsx:231 | the base name is a non-empty slug not starting with a hyphen; "location" when the name (or "location" for an empty name) has no letter or digit; otherwise its letters and digits are a non-empty prefix of the lower-cased name's, and all of them when it is shorter than 60 |
| AdminCatalog.UploadPathKeepsExtension | components/AdminCatalogManager.tsx:230-232 | the upload path starts with `locations/` and the text after its last dot is the file's own extension |
| AdminCatalog.LastPieceOfStampedName | components/AdminCatalogManager.tsx:232 | in `locations/<base>-<time>.<ext>` with dot-free parts the text after the last dot is `<ext>` |
| AdminCatalog.Highlights | components/AdminCatalogManager.tsx:282-285 | the highlights are the trimmed comma-separated pieces, in order, with the empty ones dropped: a sub-list holding each non-empty trimmed piece as often as the pieces do |
| AdminCatalog.TrimmedPiecesAreClean | components/AdminCatalogManager.tsx:282-285 | trimmed comma-free pieces stay comma-free with no surrounding blanks |
| AdminCatalog.NonBlankPiecesKept | components/AdminCatalogManager.tsx:284-285 | no non-blank piece is dropped |
| AdminCatalog.DistinctIds | components/AdminCatalogManager.tsx:286-288 | the ids are distinct and non-empty, and exactly the non-empty input ids |
| AdminCatalog.DistinctIdsKeepsFirstOccurrenceOrder | components/AdminCatalogManager.tsx:286-288 | the distinct ids are in the order of their first occurrence in the form |
| AdminCatalog.Toggle | components/AdminCatalogManager.tsx:580-585 | checking appends the value at the end of the unchanged list; unchecking removes every copy and keeps the other values in order with their multiplicities |
| AdminCatalog.NewTourType | components/AdminCatalogManager.tsx:251-263 | a blank name is refused with its message; otherwise both languages get the typed label and description |
| AdminCatalog.NewLocation | components/AdminCatalogManager.tsx:274-317 | a blank name is refused with its message; otherwise a missing required price is refused with the payload error; an accepted document has both languages of name, area and description from the form, its image path, the cleaned highlights, the distinct tour-type ids, the de-duplicated durations and the parsed prices |
| AdminCatalog.PrepareLocation | components/AdminCatalogManager.tsx:274-317 | the handler's computation gives exactly `NewLocation` of the form |
| AdminCatalog.EmptyLocationForm | components/AdminCatalogManager.tsx:319-328 | the reset form has empty texts, every loaded tour type selected, both durations offered and empty price texts |
| AdminCatalog.Manager.constructor | components/AdminCatalogManager.tsx:55-79 | the manager starts with empty forms, both durations offered, no editor open |
| AdminCatalog.Manager.LoadCatalog | components/AdminCatalogManager.tsx:139-151 | the loaded tour types, or the seed ones, replace the list; an empty tour-type selection of the location form is filled with them |
| AdminCatalog.Manager.HandleAddTourType | components/AdminCatalogManager.tsx:251-272 | a refused form keeps the form and shows its message; an accepted one writes `NewTourType` of the form, then clears the form and shows "Tour type added." when stored, and keeps the form with no message when not |
| AdminCatalog.Manager.HandleAddLocation | components/AdminCatalogManager.tsx:274-332 | returns `NewLocation` of the form; a refusal keeps the form and shows its message; an acceptance resets the form (tour types all selected) and shows "Location added." when stored, and keeps the form with no message when not |
| AdminCatalog.Manager.HandleStartEditPrice | components/AdminCatalogManager.tsx:362-379 | a location without id is ignored; otherwise the editor opens on the texts of its stored prices |
| AdminCatalog.Manager.HandleCancelEditPrice | components/AdminCatalogManager.tsx:381-385 | the editor closes with empty texts and no message |
| AdminCatalog.Manager.EditPrice | components/AdminCatalogManager.tsx:741-762 | only the edited duration's text changes |
| AdminCatalog.Manager.FinishSaveEditPrice | components/AdminCatalogManager.tsx:398-411 | an error is shown and the editor kept; otherwise the payload is sent, and when stored the editor closes with "Location price updated." while a failed store leaves the editor and message as they were |
| AdminCatalog.Manager.HandleSaveEditPrice | components/AdminCatalogManager.tsx:387-411 | a location without id changes nothing; a missing required price shows its error and keeps the editor; otherwise the parsed payload is written, and when stored the editor closes with "Location price updated." |
| AdminCatalog.Manager.ToggleTourType | components/AdminCatalogManager.tsx:578-586 | only the form's tour-type list is toggled |
| AdminCatalog.Manager.ToggleDuration | components/AdminCatalogManager.tsx:605-615 | only the form's duration list is toggled |
| AdminCatalog.Manager.HandleImageUpload | components/AdminCatalogManager.tsx:222-249 | without storage it fails with its message; otherwise it uploads to the slug path and, on success, sets the image path |
| SendBooking.GuardResponse | app/api/send-booking/route.ts:36-58 | no guard fails exactly when configured and the request is ready; the guards answer in order: missing configuration (500), invalid JSON, invalid recipient, missing booking (each 400), each with its own message |
| SendBooking.ProviderResponse | app/api/send-booking/route.ts:91-119 | 200 with `ok` exactly when the provider returned a message id; otherwise a 500 with an error |
| SendBooking.PostResponse | app/api/send-booking/route.ts:35-120 | the answer is 200 exactly when configured, the request is ready and the provider accepted it; every failure carries an error |
| SendBooking.DurationLabel | app/api/send-booking/route.ts:61-66 | an absent duration prints "-", and text other than "full" or "half" prints as it is |
| SendBooking.DurationLabelMatchesPricing | app/api/send-booking/route.ts:61-66 | "full" and "half" print as "Full day" and "Half day", as the price breakdown names them |
| SendBooking.SelectedAddonNames | app/api/send-booking/route.ts:67-74 | each add-on is listed exactly when chosen, in the order Guide, Meals, Pickup |
| SendBooking.AddonsEn | app/api/send-booking/route.ts:67-74 | the summary is empty exactly when no add-on is chosen |
| SendBooking.AddonsEnRoundTrip | app/api/send-booking/route.ts:67-74 | splitting the summary at commas and trimming gives back exactly the chosen add-ons |
| SendBooking.FieldValues | app/api/send-booking/route.ts:78-87 | there is one printed value per field label |
| SendBooking.FieldValuesOfTextFields | app/api/send-booking/route.ts:78-83 | name, date, time, tour type and location print their value, or "-" when absent |
| SendBooking.FieldValuesOfOtherFields | app/api/send-booking/route.ts:61-87 | duration prints its label; party size its number or "-"; add-ons the summary or "-" when none; total `formatTHB` of the total or of 0; notes "-" when absent or empty |
| SendBooking.BodyLines | app/api/send-booking/route.ts:76-88 | eleven lines: the heading, then each field as `label: value` in the fixed order |
| SendBooking.NoAddonsLine | app/api/send-booking/route.ts:85 | with no add-on chosen the line reads "Add-ons: -" |
| SendBooking.BodyLinesSingleLine | app/api/send-booking/route.ts:76-88 | when no field holds a line break, no line of the body does |
| SendBooking.BodyText | app/api/send-booking/route.ts:76-88 | when no field holds a line break, the body splits back into exactly its eleven lines: the heading and one `label: value` line per field |
| SendBooking.EmptyNotesAndEmptyName | app/api/send-booking/route.ts:78-87 | empty notes print "-" while an empty name prints as empty |
| SendBooking.Post | app/api/send-booking/route.ts:35-120 | a failing guard answers and sends nothing; otherwise the e-mail goes from the sender to the recipient with the subject and body, and the answer follows the provider |
| ImageUrl.StripQuotes | lib/supabase.ts:20 | the first character goes exactly when it is a quote, and the last one, when it is another character, goes exactly when it is a quote; what is left stays in place |
| ImageUrl.StripQuotesOfQuoted | lib/supabase.ts:20 | a quoted text loses exactly its two quotes |
| ImageUrl.StripQuotesOnce | lib/supabase.ts:20 | quotes inside the outer quotes are kept |
| ImageUrl.StripQuotesIsInfix | lib/supabase.ts:20 | removing quotes keeps a contiguous part of the text |
| ImageUrl.InfixOfInfix | lib/supabase.ts:20 | a contiguous part of a contiguous part is a contiguous part |
| ImageUrl.SafePath | lib/supabase.ts:20 | the cleaned path is a contiguous part of the path given; of the trimmed path it drops the first character exactly when that is a quote and the last exactly when that is a quote, and keeps everything between |
| ImageUrl.SafePathOfCleanPath | lib/supabase.ts:20 | a path without surrounding blanks or quotes is used as it is |
| ImageUrl.SafePathOfQuotedKey | lib/supabase.ts:20 | blanks and quotes around a key are all removed |
| ImageUrl.PassThroughIgnoresCase | lib/supabase.ts:25 | whether a path passes through does not depend on letter case |
| ImageUrl.UpperCaseSchemePasses | lib/supabase.ts:25-27 | `HTTPS://...` passes through |
| ImageUrl.EncodePath | lib/supabase.ts:33-36 | the encoded path splits into the encoded segments, and has as many `/` as the path |
| ImageUrl.DecodeEncodePath | lib/supabase.ts:33-36 | decoding the encoded path gives the path back |
| ImageUrl.ObjectUrlNamesKey | lib/supabase.ts:37 | the public URL built for a key names that key |
| ImageUrl.GetPublicImageUrl | lib/supabase.ts:13-44 | a missing or blank path gives ""; `http(s)` and `/` paths pass through cleaned; with no client, "" without a URL, else the bucket's public URL followed by the encoded cleaned key; with a client, the cleaned key is looked up |
| BookingsTable.ToRow | components/BookingsTable.tsx:62-85 | the row keeps the document id |
| BookingsTable.ToRowOfComplete | components/BookingsTable.tsx:65-84 | a document with every field is read into exactly the row it stores |
| BookingsTable.ToRowOfEmpty | components/BookingsTable.tsx:67-83 | a document with no fields reads as empty texts, party 0, no add-ons, total 0, locale "th" |
| BookingsTable.ToRowFieldwise | components/BookingsTable.tsx:67-83 | each of the twelve fields takes its stored value when present and its own default when missing: "", 0, no add-ons, a total of 0, locale "th" |
| BookingsTable.Visible | components/BookingsTable.tsx:140-148 | the shown rows are, in loaded order, exactly those matching both filters, each with as many copies as were loaded |
| BookingsTable.VisibleWithoutFilters | components/BookingsTable.tsx:141-146 | with both filters empty every booking is shown |
| BookingsTable.VisibleOnDate | components/BookingsTable.tsx:146 | a date filter alone shows a booking exactly when its date equals the filter |
| BookingsTable.MatchesText | components/BookingsTable.tsx:141-145 | an empty search matches every booking, any other one a booking whose lower-cased "name e-mail" contains it lower-cased |
| BookingsTable.MatchesDate | components/BookingsTable.tsx:146 | an empty date matches every booking, any other one only bookings on that date |
| BookingsTable.Matches | components/BookingsTable.tsx:147 | a booking is shown when it matches both the search and the date |
| BookingsTable.SearchIgnoresCase | components/BookingsTable.tsx:141-145 | the search ignores the case of the search text |
| BookingsTable.NameContainingQueryMatches | components/BookingsTable.tsx:141-145 | a booking whose contact name contains the search text is shown by the search |
| BookingsTable.EmailContainingQueryMatches | components/BookingsTable.tsx:141-145 | a booking whose contact e-mail contains the search text is shown by the search |
| BookingsTable.EmailRequest | components/BookingsTable.tsx:159-177 | the request goes to the contact e-mail, uses the catalog names when known and the stored ids otherwise, and a total of 0 when none is stored |
| BookingsTable.EmailRequestGuard | components/BookingsTable.tsx:159-177 | with the endpoint configured, a well-formed contact e-mail passes every guard and a malformed one is refused as an invalid recipient |
| BookingsTable.EmailShowsTableTotal | components/BookingsTable.tsx:173 | the e-mail states the same total as the table |
| BookingsTable.Outcome | components/BookingsTable.tsx:180-194 | success with "Email sent" exactly on a 2xx answer; a non-2xx answer shows its `error` field when truthy and "Failed to send email" otherwise; a network failure shows its own message |
| BookingsTable.ButtonReportsEndpoint | components/BookingsTable.tsx:158-194 | the button reports success exactly when the e-mail is well formed and the provider accepted it; a malformed e-mail shows the endpoint's reason |
| BookingsTable.EmailPanel.constructor | components/BookingsTable.tsx:51-54 | both maps start empty |
| BookingsTable.EmailPanel.BeginSend | components/BookingsTable.tsx:155-156 | the booking becomes "sending" with an empty message, and its button is disabled |
| BookingsTable.EmailPanel.FinishSend | components/BookingsTable.tsx:185-193 | the booking takes the outcome's status and message, and its button is enabled again |
| BookingsTable.EmailPanel.SendBookingEmail | components/BookingsTable.tsx:150-195 | the request is built for the booking; only its own entries change, to the outcome of the request |

## Left out

- I/O is not modelled. This covers Firestore reads and writes, the Resend client, Supabase uploads, `fetch`, timers, `console.error` and React rendering. Their outcomes are parameters and their writes are returned values.
- `normalizeLocation` is imported by the components but not defined in `lib/catalog.ts`. Locations are taken as already normalised: a record with its tour-type ids, durations and per-duration stored numbers. The `Catalog` records extend the `Location` type of `lib/catalog.ts:9-17` with those fields.
- Catalog loading is not modelled: merging Firestore documents with the seed catalog and the fallback after a failed load. `LoadCatalog` receives the resulting tour-type ids and locations.
- Sorting by `localeCompare` is not modelled (`components/AdminCatalogManager.tsx:198-209`). Neither are the delete handlers, `createdAt` timestamps, `AdminAuthGate`, the other presentational components, or the admin forms' plain text-field edits.
- The `getPublicUrl` branch of `getPublicImageUrl` (`lib/supabase.ts:40-43`) calls the storage library. The model returns `ClientLookup(key)` with the cleaned key instead of the URL the library builds.
- `formatTHB` (`Intl.NumberFormat`) is a function parameter of the e-mail body. `SingleLineFields` asks that it print no line break.
- `Number(text)` covers decimal literals with an optional sign, "Infinity" and blank text. Exponent, hexadecimal, octal and binary literals are treated as not finite.
- Stored prices and party sizes are integers, NaN or infinities. Fractional stored numbers are not modelled.
- `toLowerCase` is modelled on ASCII letters only. Other letters of a slug source or a search text are left as they are.
- `encodeURIComponent` throws on lone surrogates. Dafny characters are Unicode scalar values, so that error path does not arise.
- JSON values of the wrong type are not modelled, for example a string where the endpoint expects a number, or a non-string `error` field. Every field has its declared type or is absent.
- React state updates are modelled as taking effect in order. Interleaved sends for different bookings are not modelled: each `SendBookingEmail` call runs to completion.
- `Number(text)` is read as an exact rational number. Rounding to the nearest double and overflow to `Infinity` are not modelled, so a price text with hundreds of digits parses here although `Number` would give `Infinity` and the source would refuse it.
- AdminCatalog.UploadPath carries no contract of its own: its properties (the `locations/` folder and the kept extension) are stated by `UploadPathKeepsExtension` and `LastPieceOfStampedName`, and the upload handler returns exactly this path.
- AdminCatalog.SkipNonSlug states in its own contract only what its callers need. That it drops exactly a leading run of other characters is stated by `SkipNonSlugIsSuffix` and `SkipNonSlugAppend`, called only where used so that the other slug proofs stay small.
- AdminCatalog.CollapseNonSlug likewise. The rules that fix its result for every input (a cut outside a run, a letters-only text, a single run) are the lemmas `CollapseNonSlugAppend`, `CollapseNonSlugOfSlugChars` and `CollapseNonSlugOfRun`.
- AdminCatalog.DropLeadingHyphens likewise. That it removes exactly the leading hyphens is stated by `DropLeadingHyphensIsSuffix`.
- The `refreshCatalogs` call after each admin write is not modelled: the manager's tour-type list stays as it was until `LoadCatalog` is called with the reloaded catalog.
- A failed database write in the admin handlers rejects the handler's promise in the source. The model covers it with `stored == false`: the form and the editor are kept and no success message is shown.
