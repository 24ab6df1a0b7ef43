/**
 * The send-booking endpoint: `POST` checks its configuration and the request
 * in a fixed order, answering 500 or 400 at the first failure, and otherwise
 * hands a plain-text summary of the booking to the e-mail provider.
 *
 * The request body, the environment and the provider's answer are
 * parameters; the currency formatter is a function parameter.  The guard
 * chain is specified by `GuardResponse`, the provider's answer by
 * `ProviderResponse`, and the body by `BodyLines`/`BodyText`.
 */
module SendBooking {
  import opened Ecma
  import opened Pricing
  import EmailAddress

  /** The `booking` object of the request; every field may be absent. */
  datatype BookingSummary = BookingSummary(
    contactName: Option<string>,
    date: Option<string>,
    time: Option<string>,
    duration: Option<string>,
    tourTypeLabelEn: Option<string>,
    locationNameEn: Option<string>,
    partySize: Option<int>,
    addons: Option<Addons>,
    priceTotal: Option<int>,
    notes: Option<string>)

  datatype EmailPayload = EmailPayload(to: Option<string>, booking: Option<BookingSummary>, locale: Option<string>)

  /** The request body: not JSON at all, or a JSON value, which is `None` when
      it is not an object (`null`, a number, ...). */
  datatype RequestBody = Malformed | Parsed(payload: Option<EmailPayload>)

  /** `RESEND_API_KEY` and `RESEND_FROM_EMAIL`. */
  datatype Env = Env(apiKey: Option<string>, fromEmail: Option<string>)

  datatype ResponseBody = ErrorBody(error: string) | OkBody

  datatype Response = Response(status: int, body: ResponseBody)

  /** What the provider call gives back: an `error` object, a `data` object
      with an optional message id, or an exception with an optional message
      (`None` when what was thrown is not an `Error`). */
  datatype ProviderResult = ProviderError(message: string) | Delivered(id: Option<string>) | Threw(errorMessage: Option<string>)

  datatype Email = Email(from: string, to: string, subject: string, text: string)

  const MissingConfigMessage := "Missing RESEND_API_KEY or RESEND_FROM_EMAIL"
  const InvalidJsonMessage := "Invalid JSON payload"
  const InvalidRecipientMessage := "Invalid recipient email"
  const MissingBookingMessage := "Missing booking data"
  const NotAcceptedMessage := "Email not accepted by provider."
  const SendFailedMessage := "Failed to send email"
  const Subject := "Tour booking details"

  /** A JavaScript string is truthy when it is present and not empty. */
  predicate Truthy(x: Option<string>) {
    x.Some? && x.value != ""
  }

  // ---------------------------------------------------------------------------
  // The guard chain

  predicate Configured(env: Env) {
    Truthy(env.apiKey) && Truthy(env.fromEmail)
  }

  predicate HasValidRecipient(payload: Option<EmailPayload>) {
    payload.Some? && Truthy(payload.value.to) && EmailAddress.IsValidEmail(payload.value.to.value)
  }

  /** The request carries everything the e-mail needs. */
  predicate Ready(request: RequestBody) {
    request.Parsed? && HasValidRecipient(request.payload) && request.payload.value.booking.Some?
  }

  /** The answer of the first guard that fails, in the order configuration,
      JSON, recipient, booking; `None` when all pass.  Only a configuration
      problem is the server's fault (500); every request problem is a
      400. */
  function GuardResponse(env: Env, request: RequestBody): (r: Option<Response>)
    ensures r.None? <==> Configured(env) && Ready(request)
    ensures r.Some? ==> r.value.body.ErrorBody? && (r.value.status == 500 <==> !Configured(env))
    ensures r.Some? ==> r.value.status == 500 || r.value.status == 400
    ensures !Configured(env) ==> r == Some(Response(500, ErrorBody(MissingConfigMessage)))
    ensures Configured(env) && request.Malformed? ==> r == Some(Response(400, ErrorBody(InvalidJsonMessage)))
    ensures Configured(env) && request.Parsed? && !HasValidRecipient(request.payload) ==>
      r == Some(Response(400, ErrorBody(InvalidRecipientMessage)))
    ensures Configured(env) && request.Parsed? && HasValidRecipient(request.payload) && request.payload.value.booking.None? ==>
      r == Some(Response(400, ErrorBody(MissingBookingMessage)))
  {
    if !Configured(env) then Some(Response(500, ErrorBody(MissingConfigMessage)))
    else if request.Malformed? then Some(Response(400, ErrorBody(InvalidJsonMessage)))
    else if !HasValidRecipient(request.payload) then Some(Response(400, ErrorBody(InvalidRecipientMessage)))
    else if request.payload.value.booking.None? then Some(Response(400, ErrorBody(MissingBookingMessage)))
    else None
  }

  /** The provider accepted the message and gave it an id. */
  predicate Accepted(result: ProviderResult) {
    result.Delivered? && Truthy(result.id)
  }

  /** The answer once the e-mail has been handed to the provider. */
  function ProviderResponse(result: ProviderResult): (r: Response)
    ensures r.status == 200 <==> Accepted(result)
    ensures r.status == 200 ==> r.body == OkBody
    ensures r.status != 200 ==> r.status == 500 && r.body.ErrorBody?
  {
    match result
    case ProviderError(message) => Response(500, ErrorBody(message))
    case Delivered(id) => if Truthy(id) then Response(200, OkBody) else Response(500, ErrorBody(NotAcceptedMessage))
    case Threw(message) => Response(500, ErrorBody(OrElse(message, SendFailedMessage)))
  }

  /** The answer `POST` gives: the first failing guard's, or else the one
      the provider's result calls for. */
  function PostResponse(env: Env, request: RequestBody, provider: ProviderResult): (r: Response)
    ensures r.status == 200 <==> Configured(env) && Ready(request) && Accepted(provider)
    ensures r.status == 200 || r.status == 400 || r.status == 500
    ensures r.status != 200 ==> r.body.ErrorBody?
  {
    var guard := GuardResponse(env, request);
    if guard.Some? then guard.value else ProviderResponse(provider)
  }

  // ---------------------------------------------------------------------------
  // The text body

  /** `durationLabel`: the two known durations by name, anything else as
      sent, "-" when absent. */
  function DurationLabel(duration: Option<string>): (r: string)
    ensures duration.None? ==> r == "-"
    ensures duration.Some? && duration.value != "full" && duration.value != "half" ==> r == duration.value
  {
    if duration == Some("full") then "Full day"
    else if duration == Some("half") then "Half day"
    else OrElse(duration, "-")
  }

  /** How a stored booking spells its duration. */
  function DurationKey(d: Duration): string {
    if d == Full then "full" else "half"
  }

  /** The e-mail names a known duration the way the price breakdown does. */
  lemma DurationLabelMatchesPricing(d: Duration)
    ensures DurationLabel(Some(DurationKey(d))) == DurationName(d)
  {
  }

  const AddonNames: seq<string> := ["Guide", "Meals", "Pickup"]

  /** The names of the selected add-ons, in the order Guide, Meals,
      Pickup. */
  function SelectedAddonNames(addons: Addons): (r: seq<string>)
    ensures IsSubsequence(r, AddonNames)
    ensures ("Guide" in r <==> addons.guide) && ("Meals" in r <==> addons.meals) && ("Pickup" in r <==> addons.pickup)
  {
    var guide := if addons.guide then ["Guide"] else [];
    var meals := if addons.meals then ["Meals"] else [];
    var pickup := if addons.pickup then ["Pickup"] else [];
    SubsequenceOfChoice(addons);
    guide + meals + pickup
  }

  lemma SubsequenceOfChoice(addons: Addons)
    ensures IsSubsequence((if addons.guide then ["Guide"] else []) + (if addons.meals then ["Meals"] else [])
      + (if addons.pickup then ["Pickup"] else []), AddonNames)
  {
    var tail := if addons.pickup then ["Pickup"] else [];
    var mid := (if addons.meals then ["Meals"] else []) + tail;
    assert AddonNames[1..] == ["Meals", "Pickup"] && AddonNames[2..] == ["Pickup"];
    assert IsSubsequence(tail, ["Pickup"]) by {
      if addons.pickup {
        assert tail[1..] == [] && ["Pickup"][1..] == [];
      }
    }
    assert IsSubsequence(mid, ["Meals", "Pickup"]) by {
      if addons.meals {
        assert mid[1..] == tail;
      } else {
        assert mid == tail;
      }
    }
    var all := (if addons.guide then ["Guide"] else []) + mid;
    if addons.guide {
      assert all[1..] == mid;
    } else {
      assert all == mid;
    }
    assert (if addons.guide then ["Guide"] else []) + (if addons.meals then ["Meals"] else []) + tail == all;
  }

  /** `addonsEn`: the selected add-ons joined by ", ", with absent flags
      (and an absent `addons` object) counting as not selected. */
  function AddonsEn(addons: Option<Addons>): (r: string)
    ensures r == "" <==> addons.None? || addons.value == Addons(false, false, false)
  {
    var names := SelectedAddonNames(OrElse(addons, Addons(false, false, false)));
    assert names == [] <==> addons.None? || addons.value == Addons(false, false, false);
    JoinEmpty(names, ", ");
    Join(names, ", ")
  }

  lemma JoinEmpty(parts: seq<string>, sep: string)
    requires forall i :: 0 <= i < |parts| ==> parts[i] != []
    ensures Join(parts, sep) == "" <==> parts == []
  {
    if |parts| > 1 {
      assert Join(parts, sep) == parts[0] + sep + Join(parts[1..], sep);
    }
  }

  /** How a reader takes the add-on summary apart again: split at the
      commas, trim each piece. */
  function SummaryItems(summary: string): seq<string> {
    Map(Split(summary, ','), Trim)
  }

  /** The summary lists exactly the selected add-ons, in order. */
  lemma AddonsEnRoundTrip(addons: Addons)
    requires addons != Addons(false, false, false)
    ensures SummaryItems(AddonsEn(Some(addons))) == SelectedAddonNames(addons)
  {
    var names := SelectedAddonNames(addons);
    TrimUnchanged("Guide");
    TrimUnchanged("Meals");
    TrimUnchanged("Pickup");
    forall i | 0 <= i < |names|
      ensures ',' !in names[i] && Trim(names[i]) == names[i]
    {
      assert names[i] in AddonNames by {
        SubsequenceMembers(names, AddonNames, names[i]);
      }
    }
    ItemsOfJoin(names);
  }

  lemma {:induction false} SubsequenceMembers<T>(a: seq<T>, b: seq<T>, x: T)
    requires IsSubsequence(a, b) && x in a
    ensures x in b
    decreases |b|
  {
    if a[0] == b[0] && IsSubsequence(a[1..], b[1..]) {
      if a[0] != x {
        assert x in a[1..];
        SubsequenceMembers(a[1..], b[1..], x);
      }
    } else {
      SubsequenceMembers(a, b[1..], x);
    }
    assert b == [b[0]] + b[1..];
  }

  /** Pieces without commas and without surrounding whitespace, joined by
      ", ", split and trimmed back to themselves. */
  lemma {:induction false} ItemsOfJoin(names: seq<string>)
    requires |names| >= 1
    requires forall i :: 0 <= i < |names| ==> ',' !in names[i] && Trim(names[i]) == names[i]
    ensures SummaryItems(Join(names, ", ")) == names
  {
    if |names| == 1 {
      SplitNoSeparator(names[0], ',');
    } else {
      ItemsOfJoin(names[1..]);
      ItemsAfterPiece(names[0], Join(names[1..], ", "));
      assert Join(names, ", ") == names[0] + ", " + Join(names[1..], ", ");
      assert names == [names[0]] + names[1..];
    }
  }

  /** A trimmed piece followed by ", " comes back as one item, and the space
      after the comma is trimmed off the next one. */
  lemma ItemsAfterPiece(p: string, rest: string)
    requires ',' !in p && Trim(p) == p
    ensures SummaryItems(p + ", " + rest) == [p] + SummaryItems(rest)
  {
    var tail := Split(rest, ',');
    var parts := Split(p + ", " + rest, ',');
    SplitAfterCommaSpace(p, rest);
    assert Trim([' '] + tail[0]) == Trim(tail[0]) by {
      assert ([' '] + tail[0])[1..] == tail[0];
    }
    var items := SummaryItems(p + ", " + rest);
    var expected := [p] + SummaryItems(rest);
    assert |items| == |expected|;
    forall i | 0 <= i < |items|
      ensures items[i] == expected[i]
    {
      if i > 1 {
        assert parts[i] == tail[i - 1];
      }
    }
  }

  /** The split of `p + ", " + rest`: the piece, then the pieces of `rest`
      with the first one behind a blank. */
  lemma SplitAfterCommaSpace(p: string, rest: string)
    requires ',' !in p
    ensures var tail := Split(rest, ',');
      Split(p + ", " + rest, ',') == [p, [' '] + tail[0]] + tail[1..]
  {
    var spaced := [' '] + rest;
    assert p + ", " + rest == p + [','] + spaced;
    SplitAfterPiece(p, spaced, ',');
    assert spaced[1..] == rest;
  }

  /** The field labels of lines 2 to 11, in order. */
  const FieldLabels: seq<string> := ["Name", "Date", "Time", "Duration", "Tour type", "Location", "Party size", "Add-ons", "Total", "Notes"]

  const Heading := "Booking details"

  function FieldLine(name: string, value: string): string {
    name + ": " + value
  }

  /** What each field line prints: absent fields print "-", an empty add-on
      list prints "-", the total defaults to 0, and notes print "-" when
      absent or empty. */
  function FieldValues(booking: BookingSummary, formatTHB: int -> string): (values: seq<string>)
    ensures |values| == |FieldLabels|
  {
    var addons := AddonsEn(booking.addons);
    [
      OrElse(booking.contactName, "-"),
      OrElse(booking.date, "-"),
      OrElse(booking.time, "-"),
      DurationLabel(booking.duration),
      OrElse(booking.tourTypeLabelEn, "-"),
      OrElse(booking.locationNameEn, "-"),
      if booking.partySize.Some? then IntToString(booking.partySize.value) else "-",
      if addons == "" then "-" else addons,
      formatTHB(OrElse(booking.priceTotal, 0)),
      if Truthy(booking.notes) then booking.notes.value else "-"
    ]
  }

  /** The eleven lines of the body: the heading, then one line per field in
      the order of `FieldLabels`. */
  function BodyLines(booking: BookingSummary, formatTHB: int -> string): (lines: seq<string>)
    ensures |lines| == 11 && lines[0] == Heading
    ensures forall k :: 1 <= k < 11 ==> lines[k] == FieldLine(FieldLabels[k - 1], FieldValues(booking, formatTHB)[k - 1])
  {
    var values := FieldValues(booking, formatTHB);
    [Heading] + seq(|FieldLabels|, k requires 0 <= k < |FieldLabels| => FieldLine(FieldLabels[k], values[k]))
  }

  /** The text sent: the lines joined by newlines. */
  function BodyText(booking: BookingSummary, formatTHB: int -> string): (text: string)
    ensures SingleLineFields(booking, formatTHB) ==> Split(text, '\n') == BodyLines(booking, formatTHB)
  {
    var lines := BodyLines(booking, formatTHB);
    assert SingleLineFields(booking, formatTHB) ==> Split(Join(lines, "\n"), '\n') == lines by {
      if SingleLineFields(booking, formatTHB) {
        BodyLinesSingleLine(booking, formatTHB);
        SplitJoin(lines, '\n');
      }
    }
    Join(lines, "\n")
  }

  /** None of the texts the body prints holds a line break. */
  predicate SingleLineFields(booking: BookingSummary, formatTHB: int -> string) {
    && (booking.contactName.Some? ==> '\n' !in booking.contactName.value)
    && (booking.date.Some? ==> '\n' !in booking.date.value)
    && (booking.time.Some? ==> '\n' !in booking.time.value)
    && (booking.duration.Some? ==> '\n' !in booking.duration.value)
    && (booking.tourTypeLabelEn.Some? ==> '\n' !in booking.tourTypeLabelEn.value)
    && (booking.locationNameEn.Some? ==> '\n' !in booking.locationNameEn.value)
    && (booking.notes.Some? ==> '\n' !in booking.notes.value)
    && '\n' !in formatTHB(OrElse(booking.priceTotal, 0))
  }

  /** When no field holds a line break, no line of the body does. */
  lemma BodyLinesSingleLine(booking: BookingSummary, formatTHB: int -> string)
    requires SingleLineFields(booking, formatTHB)
    ensures forall k :: 0 <= k < 11 ==> '\n' !in BodyLines(booking, formatTHB)[k]
  {
    var lines := BodyLines(booking, formatTHB);
    var values := FieldValues(booking, formatTHB);
    FieldValuesSingleLine(booking, formatTHB);
    LabelsSingleLine();
    forall k | 0 <= k < 11
      ensures '\n' !in lines[k]
    {
      if k > 0 {
        FieldLineSingleLine(FieldLabels[k - 1], values[k - 1]);
      }
    }
  }

  lemma LabelsSingleLine()
    ensures forall k :: 0 <= k < |FieldLabels| ==> '\n' !in FieldLabels[k]
  {
  }

  lemma FieldLineSingleLine(name: string, value: string)
    requires '\n' !in name && '\n' !in value
    ensures '\n' !in FieldLine(name, value)
  {
  }

  lemma FieldValuesSingleLine(booking: BookingSummary, formatTHB: int -> string)
    requires SingleLineFields(booking, formatTHB)
    ensures forall k :: 0 <= k < |FieldLabels| ==> '\n' !in FieldValues(booking, formatTHB)[k]
  {
    if booking.partySize.Some? {
      IntToStringSingleLine(booking.partySize.value);
    }
    AddonsEnSingleLine(booking.addons);
  }

  lemma IntToStringSingleLine(n: int)
    ensures '\n' !in IntToString(n)
  {
    var digits := NatToString(if n >= 0 then n else -n);
    assert forall i :: 0 <= i < |digits| ==> digits[i] != '\n';
    if n < 0 {
      assert IntToString(n) == "-" + digits;
      assert forall i :: 0 <= i < |IntToString(n)| ==> IntToString(n)[i] != '\n' by {
        forall i | 0 <= i < |IntToString(n)| ensures IntToString(n)[i] != '\n' {
          if i > 0 { assert IntToString(n)[i] == digits[i - 1]; }
        }
      }
    }
  }

  lemma AddonsEnSingleLine(addons: Option<Addons>)
    ensures '\n' !in AddonsEn(addons)
  {
    var names := SelectedAddonNames(OrElse(addons, Addons(false, false, false)));
    forall i | 0 <= i < |names|
      ensures '\n' !in names[i]
    {
      SubsequenceMembers(names, AddonNames, names[i]);
    }
    JoinAvoids(names, ", ", '\n');
  }

  lemma {:induction false} JoinAvoids(parts: seq<string>, sep: string, c: char)
    requires c !in sep && forall i :: 0 <= i < |parts| ==> c !in parts[i]
    ensures c !in Join(parts, sep)
  {
    if |parts| > 1 {
      JoinAvoids(parts[1..], sep, c);
      assert Join(parts, sep) == parts[0] + sep + Join(parts[1..], sep);
    }
  }

  /** The values of the text fields: an absent field prints "-", a present
      one prints as stored.  `BodyLines` puts each behind its label. */
  lemma FieldValuesOfTextFields(booking: BookingSummary, formatTHB: int -> string)
    ensures var values := FieldValues(booking, formatTHB);
      && (booking.contactName.None? ==> values[0] == "-")
      && (booking.contactName.Some? ==> values[0] == booking.contactName.value)
      && (booking.date.None? ==> values[1] == "-")
      && (booking.date.Some? ==> values[1] == booking.date.value)
      && (booking.time.None? ==> values[2] == "-")
      && (booking.time.Some? ==> values[2] == booking.time.value)
      && (booking.tourTypeLabelEn.None? ==> values[4] == "-")
      && (booking.tourTypeLabelEn.Some? ==> values[4] == booking.tourTypeLabelEn.value)
      && (booking.locationNameEn.None? ==> values[5] == "-")
      && (booking.locationNameEn.Some? ==> values[5] == booking.locationNameEn.value)
  {
  }

  /** The values of the other fields: the duration by its label, the party
      size in decimal or "-", no add-ons as "-", a missing total as the
      formatted 0, and notes as "-" unless present and non-empty. */
  lemma FieldValuesOfOtherFields(booking: BookingSummary, formatTHB: int -> string)
    ensures var values := FieldValues(booking, formatTHB);
      && values[3] == DurationLabel(booking.duration)
      && (booking.partySize.None? ==> values[6] == "-")
      && (booking.partySize.Some? ==> values[6] == IntToString(booking.partySize.value))
      && (AddonsEn(booking.addons) == "" ==> values[7] == "-")
      && (AddonsEn(booking.addons) != "" ==> values[7] == AddonsEn(booking.addons))
      && (booking.priceTotal.None? ==> values[8] == formatTHB(0))
      && (booking.priceTotal.Some? ==> values[8] == formatTHB(booking.priceTotal.value))
      && (booking.notes.None? || booking.notes.value == "" ==> values[9] == "-")
      && (booking.notes.Some? && booking.notes.value != "" ==> values[9] == booking.notes.value)
  {
  }

  /** With no add-ons chosen the body says "Add-ons: -". */
  lemma NoAddonsLine(booking: BookingSummary, formatTHB: int -> string)
    requires AddonsEn(booking.addons) == ""
    ensures BodyLines(booking, formatTHB)[8] == "Add-ons: -"
  {
    FieldValuesOfOtherFields(booking, formatTHB);
  }

  /** A notes field that is empty prints "-" like an absent one, while an
      empty contact name prints as empty. */
  lemma EmptyNotesAndEmptyName(booking: BookingSummary, formatTHB: int -> string)
    requires booking.notes == Some("") && booking.contactName == Some("")
    ensures BodyLines(booking, formatTHB)[10] == "Notes: -"
    ensures BodyLines(booking, formatTHB)[1] == "Name: "
  {
  }

  // ---------------------------------------------------------------------------
  // POST

  /** `POST /api/send-booking`: the guards in order with early returns, then
      the provider call.  `sent` is the e-mail handed to the provider, if
      the request got that far; `provider` is what the provider answers. */
  method Post(env: Env, request: RequestBody, formatTHB: int -> string, provider: ProviderResult)
    returns (response: Response, sent: Option<Email>)
    ensures GuardResponse(env, request).Some? ==> response == GuardResponse(env, request).value && sent == None
    ensures GuardResponse(env, request).None? ==>
      var payload := request.payload.value;
      && sent == Some(Email(env.fromEmail.value, payload.to.value, Subject, BodyText(payload.booking.value, formatTHB)))
      && response == ProviderResponse(provider)
    ensures response == PostResponse(env, request, provider)
    ensures response.status == 200 <==> sent.Some? && Accepted(provider)
  {
    if !Truthy(env.apiKey) || !Truthy(env.fromEmail) {
      return Response(500, ErrorBody(MissingConfigMessage)), None;
    }
    if request.Malformed? {
      return Response(400, ErrorBody(InvalidJsonMessage)), None;
    }
    var payload := request.payload;
    if payload.None? || !Truthy(payload.value.to) || !EmailAddress.IsValidEmail(payload.value.to.value) {
      return Response(400, ErrorBody(InvalidRecipientMessage)), None;
    }
    if payload.value.booking.None? {
      return Response(400, ErrorBody(MissingBookingMessage)), None;
    }
    var booking := payload.value.booking.value;
    var text := BodyText(booking, formatTHB);
    sent := Some(Email(env.fromEmail.value, payload.value.to.value, Subject, text));
    match provider {
      case ProviderError(message) =>
        return Response(500, ErrorBody(message)), sent;
      case Delivered(id) =>
        if !Truthy(id) {
          return Response(500, ErrorBody(NotAcceptedMessage)), sent;
        }
      case Threw(message) =>
        return Response(500, ErrorBody(if message.Some? then message.value else SendFailedMessage)), sent;
    }
    response := Response(200, OkBody);
  }
}
