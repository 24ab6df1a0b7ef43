/**
 * The admin bookings table: stored booking documents read into rows with
 * defaults for missing fields, the search filter over those rows, and the
 * per-booking e-mail button, whose status and message are kept in two maps
 * keyed by booking id.
 */
module BookingsTable {
  import opened Ecma
  import opened Pricing
  import opened Catalog
  import SendBooking
  import EmailAddress

  // ---------------------------------------------------------------------------
  // Rows

  datatype StoredPrice = StoredPrice(total: Option<int>)

  /** The fields of a stored booking document; any of them may be missing. */
  datatype StoredBooking = StoredBooking(
    date: Option<string>,
    time: Option<string>,
    partySize: Option<int>,
    duration: Option<string>,
    tourType: Option<string>,
    locationId: Option<string>,
    addons: Option<Addons>,
    price: Option<StoredPrice>,
    contactName: Option<string>,
    contactEmail: Option<string>,
    notes: Option<string>,
    locale: Option<string>)

  /** One row of the table.  A stored `price` object without a `total` is
      kept as it is; readers default the total to 0. */
  datatype BookingRow = BookingRow(
    id: string,
    date: string,
    time: string,
    partySize: int,
    duration: string,
    tourType: string,
    locationId: string,
    addons: Addons,
    price: StoredPrice,
    contactName: string,
    contactEmail: string,
    notes: string,
    locale: string)

  const NoAddons := Addons(false, false, false)
  const DefaultLocale := "th"

  /** The row a document with no fields at all becomes. */
  function EmptyRow(id: string): BookingRow {
    BookingRow(id, "", "", 0, "", "", "", NoAddons, StoredPrice(Some(0)), "", "", "", DefaultLocale)
  }

  /** The row-building map of `fetchBookings`: each missing field takes its
      default, each present field is kept. */
  function ToRow(id: string, doc: StoredBooking): (r: BookingRow)
    ensures r.id == id
  {
    BookingRow(
      id,
      OrElse(doc.date, ""),
      OrElse(doc.time, ""),
      OrElse(doc.partySize, 0),
      OrElse(doc.duration, ""),
      OrElse(doc.tourType, ""),
      OrElse(doc.locationId, ""),
      OrElse(doc.addons, NoAddons),
      OrElse(doc.price, StoredPrice(Some(0))),
      OrElse(doc.contactName, ""),
      OrElse(doc.contactEmail, ""),
      OrElse(doc.notes, ""),
      OrElse(doc.locale, DefaultLocale))
  }

  /** The document that stores every field of a row. */
  function StoredOf(row: BookingRow): StoredBooking {
    StoredBooking(Some(row.date), Some(row.time), Some(row.partySize), Some(row.duration), Some(row.tourType),
      Some(row.locationId), Some(row.addons), Some(row.price), Some(row.contactName), Some(row.contactEmail),
      Some(row.notes), Some(row.locale))
  }

  /** A complete document is read back into exactly the row it stores. */
  lemma ToRowOfComplete(row: BookingRow)
    ensures ToRow(row.id, StoredOf(row)) == row
  {
  }

  /** A document with every field missing reads as the all-defaults row:
      empty texts, party size 0, no add-ons, total 0, locale "th". */
  lemma ToRowOfEmpty(id: string)
    ensures ToRow(id, StoredBooking(None, None, None, None, None, None, None, None, None, None, None, None)) == EmptyRow(id)
    ensures EmptyRow(id).partySize == 0 && EmptyRow(id).addons == NoAddons && EmptyRow(id).locale == "th"
  {
  }

  /** A missing field never disturbs the others: the defaults are taken
      field by field. */
  lemma ToRowFieldwise(id: string, doc: StoredBooking)
    ensures var r := ToRow(id, doc);
      && (doc.date.Some? ==> r.date == doc.date.value) && (doc.date.None? ==> r.date == "")
      && (doc.time.Some? ==> r.time == doc.time.value) && (doc.time.None? ==> r.time == "")
      && (doc.partySize.Some? ==> r.partySize == doc.partySize.value) && (doc.partySize.None? ==> r.partySize == 0)
      && (doc.duration.Some? ==> r.duration == doc.duration.value) && (doc.duration.None? ==> r.duration == "")
      && (doc.tourType.Some? ==> r.tourType == doc.tourType.value) && (doc.tourType.None? ==> r.tourType == "")
      && (doc.locationId.Some? ==> r.locationId == doc.locationId.value) && (doc.locationId.None? ==> r.locationId == "")
      && (doc.addons.Some? ==> r.addons == doc.addons.value) && (doc.addons.None? ==> r.addons == NoAddons)
      && (doc.price.Some? ==> r.price == doc.price.value) && (doc.price.None? ==> r.price.total == Some(0))
      && (doc.contactName.Some? ==> r.contactName == doc.contactName.value) && (doc.contactName.None? ==> r.contactName == "")
      && (doc.contactEmail.Some? ==> r.contactEmail == doc.contactEmail.value) && (doc.contactEmail.None? ==> r.contactEmail == "")
      && (doc.notes.Some? ==> r.notes == doc.notes.value) && (doc.notes.None? ==> r.notes == "")
      && (doc.locale.Some? ==> r.locale == doc.locale.value) && (doc.locale.None? ==> r.locale == DefaultLocale)
  {
  }

  // ---------------------------------------------------------------------------
  // The filter

  /** The search text, ignoring case, occurs in "<contact name> <contact
      e-mail>"; an empty search text matches everything. */
  predicate MatchesText(row: BookingRow, queryText: string) {
    queryText == "" || Includes(ToLower(row.contactName + " " + row.contactEmail), ToLower(queryText))
  }

  /** An empty date filter matches everything, any other only that date. */
  predicate MatchesDate(row: BookingRow, filterDate: string) {
    filterDate == "" || row.date == filterDate
  }

  predicate Matches(row: BookingRow, queryText: string, filterDate: string) {
    MatchesText(row, queryText) && MatchesDate(row, filterDate)
  }

  /** `filtered`: the rows that match both filters, in their loaded
      order. */
  function Visible(rows: seq<BookingRow>, queryText: string, filterDate: string): (r: seq<BookingRow>)
    ensures IsSubsequence(r, rows)
    ensures forall i :: 0 <= i < |r| ==> Matches(r[i], queryText, filterDate)
    ensures forall i :: 0 <= i < |rows| && Matches(rows[i], queryText, filterDate) ==> rows[i] in r
    ensures forall row :: Count(r, row) == if Matches(row, queryText, filterDate) then Count(rows, row) else 0
  {
    var matches := row => Matches(row, queryText, filterDate);
    FilterIsSubsequence(rows, matches);
    FilterCountAll(rows, matches);
    Filter(rows, matches)
  }

  /** With both filters empty every booking is shown. */
  lemma VisibleWithoutFilters(rows: seq<BookingRow>)
    ensures Visible(rows, "", "") == rows
  {
    FilterAll(rows, row => Matches(row, "", ""));
  }

  /** A date filter alone keeps exactly the bookings on that date. */
  lemma VisibleOnDate(rows: seq<BookingRow>, filterDate: string, row: BookingRow)
    requires filterDate != "" && row in rows
    ensures row in Visible(rows, "", filterDate) <==> row.date == filterDate
  {
  }

  /** The search ignores the case of the search text. */
  lemma SearchIgnoresCase(row: BookingRow, queryText: string)
    ensures MatchesText(row, ToLower(queryText)) <==> MatchesText(row, queryText)
  {
    ToLowerIdempotent(queryText);
  }

  /** A booking whose contact name contains the search text is found, in
      whatever case either is written. */
  lemma NameContainingQueryMatches(row: BookingRow, queryText: string)
    requires Includes(row.contactName, queryText)
    ensures MatchesText(row, queryText)
  {
    var k :| 0 <= k <= |row.contactName| && OccursAt(row.contactName, queryText, k);
    var whole := row.contactName + " " + row.contactEmail;
    OccursInPrefix(row.contactName, " " + row.contactEmail, queryText, k);
    assert whole == row.contactName + (" " + row.contactEmail);
    OccursLowered(whole, queryText, k);
  }

  /** Likewise for the contact e-mail. */
  lemma EmailContainingQueryMatches(row: BookingRow, queryText: string)
    requires Includes(row.contactEmail, queryText)
    ensures MatchesText(row, queryText)
  {
    var k :| 0 <= k <= |row.contactEmail| && OccursAt(row.contactEmail, queryText, k);
    var front := row.contactName + " ";
    var whole := front + row.contactEmail;
    assert whole[|front| + k..|front| + k + |queryText|] == row.contactEmail[k..k + |queryText|];
    OccursLowered(whole, queryText, |front| + k);
  }

  lemma OccursInPrefix(s: string, tail: string, t: string, k: int)
    requires OccursAt(s, t, k)
    ensures OccursAt(s + tail, t, k)
  {
    assert (s + tail)[k..k + |t|] == s[k..k + |t|];
  }

  lemma OccursLowered(s: string, t: string, k: int)
    requires OccursAt(s, t, k)
    ensures OccursAt(ToLower(s), ToLower(t), k)
  {
    var lowered := ToLower(s)[k..k + |t|];
    assert forall i :: 0 <= i < |t| ==> lowered[i] == ToLowerChar(s[k + i]) == ToLowerChar(t[i]);
  }

  // ---------------------------------------------------------------------------
  // The e-mail request

  /** The request body of the e-mail button: the catalog's English names
      when the tour type and location are known, the stored ids
      otherwise. */
  function EmailRequest(row: BookingRow, tourType: Option<TourType>, location: Option<Location>): (r: SendBooking.EmailPayload)
    ensures r.to == Some(row.contactEmail) && r.booking.Some? && r.locale == Some(row.locale)
    ensures r.booking.value.tourTypeLabelEn == Some(if tourType.Some? then tourType.value.labelEn else row.tourType)
    ensures r.booking.value.locationNameEn == Some(if location.Some? then location.value.nameEn else row.locationId)
    ensures r.booking.value.priceTotal == Some(OrElse(row.price.total, 0))
  {
    SendBooking.EmailPayload(
      Some(row.contactEmail),
      Some(SendBooking.BookingSummary(
        Some(row.contactName),
        Some(row.date),
        Some(row.time),
        Some(row.duration),
        Some(if tourType.Some? then tourType.value.labelEn else row.tourType),
        Some(if location.Some? then location.value.nameEn else row.locationId),
        Some(row.partySize),
        Some(row.addons),
        Some(OrElse(row.price.total, 0)),
        Some(row.notes))),
      Some(row.locale))
  }

  /** With the endpoint configured, a booking whose contact e-mail is
      well-formed passes every check of the endpoint, and one whose e-mail
      is not is refused with "Invalid recipient email". */
  lemma EmailRequestGuard(env: SendBooking.Env, row: BookingRow, tourType: Option<TourType>, location: Option<Location>)
    requires SendBooking.Configured(env)
    ensures var request := SendBooking.Parsed(Some(EmailRequest(row, tourType, location)));
      && (EmailAddress.IsValidEmail(row.contactEmail) ==> SendBooking.GuardResponse(env, request).None?)
      && (!EmailAddress.IsValidEmail(row.contactEmail) ==>
            SendBooking.GuardResponse(env, request) == Some(SendBooking.Response(400, SendBooking.ErrorBody(SendBooking.InvalidRecipientMessage))))
  {
    if EmailAddress.IsValidEmail(row.contactEmail) {
      EmptyIsNotEmail();
    }
  }

  lemma EmptyIsNotEmail()
    ensures !EmailAddress.IsValidEmail("")
  {
    EmailAddress.IsValidEmailMatchesPattern("");
  }

  /** The e-mail a booking sends states the total the table shows. */
  lemma EmailShowsTableTotal(row: BookingRow, tourType: Option<TourType>, location: Option<Location>, formatTHB: int -> string)
    ensures SendBooking.BodyLines(EmailRequest(row, tourType, location).booking.value, formatTHB)[9]
      == "Total: " + formatTHB(OrElse(row.price.total, 0))
  {
    var booking := EmailRequest(row, tourType, location).booking.value;
    assert SendBooking.FieldValues(booking, formatTHB)[8] == formatTHB(OrElse(row.price.total, 0));
    assert SendBooking.FieldLabels[8] == "Total";
  }

  // ---------------------------------------------------------------------------
  // The e-mail button

  /** The state of one booking's e-mail button; a booking with no entry is
      idle. */
  datatype EmailStatus = Idle | Sending | Success | Error

  const EmailSentMessage := "Email sent"

  /** What the button's `fetch` gives back: an HTTP status with the `error`
      field of the JSON answer (`None` when the answer has none or is not
      JSON), or a rejection with its message. */
  datatype FetchResult = Responded(status: int, errorField: Option<string>) | NetworkFailure(message: string)

  /** The status and message a finished send leaves: a 2xx answer is a
      success; otherwise the endpoint's error text, or the generic failure
      text when there is none. */
  function Outcome(result: FetchResult): (r: (EmailStatus, string))
    ensures r.0 == Success || r.0 == Error
    ensures r.0 == Success <==> result.Responded? && 200 <= result.status < 300
    ensures r.0 == Success ==> r.1 == EmailSentMessage
    ensures result.Responded? && r.0 == Error ==> r.1 != ""
    ensures result.Responded? && !(200 <= result.status < 300) && SendBooking.Truthy(result.errorField) ==>
      r == (Error, result.errorField.value)
    ensures result.Responded? && !(200 <= result.status < 300) && !SendBooking.Truthy(result.errorField) ==>
      r == (Error, SendBooking.SendFailedMessage)
    ensures result.NetworkFailure? ==> r == (Error, result.message)
  {
    match result
    case Responded(status, errorField) =>
      if 200 <= status < 300 then (Success, EmailSentMessage)
      else (Error, if SendBooking.Truthy(errorField) then errorField.value else SendBooking.SendFailedMessage)
    case NetworkFailure(message) => (Error, message)
  }

  /** How the endpoint's answer reaches the button. */
  function Received(response: SendBooking.Response): FetchResult {
    Responded(response.status, if response.body.ErrorBody? then Some(response.body.error) else None)
  }

  /** End to end: the button reports success exactly when the provider
      accepted the e-mail, and a refused recipient shows the endpoint's
      reason. */
  lemma ButtonReportsEndpoint(env: SendBooking.Env, row: BookingRow, tourType: Option<TourType>,
    location: Option<Location>, formatTHB: int -> string, provider: SendBooking.ProviderResult)
    requires SendBooking.Configured(env)
    ensures var request := SendBooking.Parsed(Some(EmailRequest(row, tourType, location)));
      var response := SendBooking.PostResponse(env, request, provider);
      && (Outcome(Received(response)).0 == Success <==> EmailAddress.IsValidEmail(row.contactEmail) && SendBooking.Accepted(provider))
      && (!EmailAddress.IsValidEmail(row.contactEmail) ==> Outcome(Received(response)) == (Error, SendBooking.InvalidRecipientMessage))
  {
    EmailRequestGuard(env, row, tourType, location);
  }

  /** The two maps of the table that the e-mail buttons update. */
  class EmailPanel {
    var emailStatus: map<string, EmailStatus>
    var emailMessage: map<string, string>

    constructor()
      ensures emailStatus == map[] && emailMessage == map[]
    {
      emailStatus := map[];
      emailMessage := map[];
    }

    function StatusOf(id: string): EmailStatus
      reads this
    {
      if id in emailStatus then emailStatus[id] else Idle
    }

    /** The button is enabled unless a send for the booking is under way. */
    predicate CanSend(id: string)
      reads this
    {
      StatusOf(id) != Sending
    }

    /** The first two updates: the booking's button shows "sending" and its
        message is cleared. */
    method BeginSend(id: string)
      modifies this
      ensures emailStatus == old(emailStatus)[id := Sending]
      ensures emailMessage == old(emailMessage)[id := ""]
      ensures !CanSend(id)
    {
      emailStatus := emailStatus[id := Sending];
      emailMessage := emailMessage[id := ""];
    }

    /** The last two updates: the outcome of the request. */
    method FinishSend(id: string, result: FetchResult)
      modifies this
      ensures emailStatus == old(emailStatus)[id := Outcome(result).0]
      ensures emailMessage == old(emailMessage)[id := Outcome(result).1]
      ensures CanSend(id)
    {
      var (status, message) := Outcome(result);
      emailStatus := emailStatus[id := status];
      emailMessage := emailMessage[id := message];
    }

    /** `sendBookingEmail`: builds the request, marks the booking as
        sending, and records the outcome `result` of the request.  Only the
        booking's own entries change. */
    method SendBookingEmail(row: BookingRow, tourType: Option<TourType>, location: Option<Location>, result: FetchResult)
      returns (request: SendBooking.EmailPayload)
      modifies this
      ensures request == EmailRequest(row, tourType, location)
      ensures emailStatus == old(emailStatus)[row.id := Outcome(result).0]
      ensures emailMessage == old(emailMessage)[row.id := Outcome(result).1]
      ensures forall id :: id != row.id ==> StatusOf(id) == old(StatusOf(id))
      ensures forall id :: id != row.id && id in old(emailMessage) ==> id in emailMessage && emailMessage[id] == old(emailMessage[id])
      ensures CanSend(row.id)
    {
      BeginSend(row.id);
      request := EmailRequest(row, tourType, location);
      FinishSend(row.id, result);
    }
  }
}
