/**
 * The event form (src/pages/events/components/event-form.tsx): four required
 * texts, a seat count of at least one, a non-negative fee and an optional map
 * link, and the defaults taken from the event being edited.
 */
module EventForm {
  import opened Wrappers
  import opened Validation
  import opened FormData
  import Types

  datatype EventValues = EventValues(
    title: string, date: string, location: string, description: string,
    seatsAvailable: int, fee: int, googleMapsLink: string, image: JsValue)

  /**
   * The schema. Whether `googleMapsLink` is a well-formed URL is decided by
   * the validation library and enters as `urlOk`.
   */
  function Validate(v: EventValues, urlOk: bool): (issues: seq<Issue>)
    ensures issues == [] <==>
      && v.title != "" && v.date != "" && v.location != "" && v.description != ""
      && v.seatsAvailable >= 1 && v.fee >= 0 && urlOk
    ensures v.seatsAvailable < 1 ==>
      Issue("seatsAvailable", "Must have at least 1 seat available") in issues
    ensures v.fee < 0 ==> Issue("fee", "Fee cannot be negative") in issues
    ensures v.title == "" ==> issues[0] == Issue("title", "Title is required")
  {
    var texts :=
      Required(v.title, "title", "Title is required")
      + Required(v.date, "date", "Date is required")
      + Required(v.location, "location", "Location is required")
      + Required(v.description, "description", "Description is required");
    var seats := Rule(v.seatsAvailable >= 1, "seatsAvailable", "Must have at least 1 seat available");
    var fee := Rule(v.fee >= 0, "fee", "Fee cannot be negative");
    var link := Rule(urlOk, "googleMapsLink", "Must be a valid URL");
    assert v.seatsAvailable < 1 ==> (texts + seats + fee + link)[|texts|] == seats[0];
    assert v.fee < 0 ==> (texts + seats + fee + link)[|texts + seats|] == fee[0];
    texts + seats + fee + link
  }

  /** Each required text field reports its own message when empty. */
  lemma RequiredTextMessages(v: EventValues, urlOk: bool)
    ensures v.date == "" ==> Issue("date", "Date is required") in Validate(v, urlOk)
    ensures v.location == "" ==> Issue("location", "Location is required") in Validate(v, urlOk)
    ensures v.description == "" ==>
      Issue("description", "Description is required") in Validate(v, urlOk)
  {
    var issues := Validate(v, urlOk);
    var a := Required(v.title, "title", "Title is required");
    var b := Required(v.date, "date", "Date is required");
    var c := Required(v.location, "location", "Location is required");
    assert v.date == "" ==> issues[|a|] == Issue("date", "Date is required");
    assert v.location == "" ==> issues[|a + b|] == Issue("location", "Location is required");
    assert v.description == "" ==>
      issues[|a + b + c|] == Issue("description", "Description is required");
  }

  /**
   * The default values. Texts fall back to `""`; the date is the stored
   * timestamp reduced to its `YYYY-MM-DD` day by `isoDay`; the seat count
   * uses `|| 1`, so a stored 0 also becomes 1; the fee uses `|| 0`.
   */
  function Defaults(initialData: Option<Types.Event>, isoDay: string -> string): (v: EventValues)
    ensures v.seatsAvailable != 0
    ensures v.image == Undefined
    ensures initialData.None? ==>
      v == EventValues("", "", "", "", 1, 0, "", Undefined)
    ensures initialData.Some? ==>
      && v.title == initialData.value.title && v.location == initialData.value.location
      && v.description == initialData.value.description
      && v.googleMapsLink == initialData.value.googleMapsLink
      && v.fee == initialData.value.fee
      && v.date == (if initialData.value.date == "" then "" else isoDay(initialData.value.date))
      && (initialData.value.seatsAvailable != 0 ==>
            v.seatsAvailable == initialData.value.seatsAvailable)
  {
    match initialData
    case None => EventValues("", "", "", "", 1, 0, "", Undefined)
    case Some(e) =>
      EventValues(
        if e.title != "" then e.title else "",
        if e.date != "" then isoDay(e.date) else "",
        if e.location != "" then e.location else "",
        if e.description != "" then e.description else "",
        if e.seatsAvailable != 0 then e.seatsAvailable else 1,
        if e.fee != 0 then e.fee else 0,
        if e.googleMapsLink != "" then e.googleMapsLink else "",
        Undefined)
  }

  /** An event stored with no seats left opens for editing with one seat. */
  lemma SoldOutEventDefaultsToOneSeat(e: Types.Event, isoDay: string -> string)
    requires e.seatsAvailable == 0
    ensures Defaults(Some(e), isoDay).seatsAvailable == 1
  {
  }

  /**
   * Editing a stored event that meets the schema, with nothing changed, is
   * accepted again.
   */
  lemma StoredEventRevalidates(e: Types.Event, isoDay: string -> string, urlOk: bool)
    requires e.title != "" && e.date != "" && e.location != "" && e.description != ""
    requires isoDay(e.date) != ""
    requires e.seatsAvailable >= 1 && e.fee >= 0 && urlOk
    ensures Validate(Defaults(Some(e), isoDay), urlOk) == []
  {
  }

  /** A new event is refused until its texts are filled in (and its link checked). */
  lemma NewEventNeedsTexts(isoDay: string -> string, urlOk: bool)
    ensures Validate(Defaults(None, isoDay), urlOk) != []
    ensures Validate(Defaults(None, isoDay), urlOk)[0] == Issue("title", "Title is required")
  {
  }
}
