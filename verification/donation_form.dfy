/**
 * The donation form (src/pages/donations/components/donation-form.tsx): four
 * required texts and an optional image, sent as a multipart payload.
 */
module DonationForm {
  import opened Wrappers
  import opened Validation
  import opened FormData
  import Types

  datatype DonationValues = DonationValues(
    title: string, date: string, location: string, description: string, image: JsValue)

  /** The schema: each text field is required and reports its own message. */
  function Validate(v: DonationValues): (issues: seq<Issue>)
    ensures issues == [] <==>
      v.title != "" && v.date != "" && v.location != "" && v.description != ""
    ensures HasIssueAt(issues, "title") <==> v.title == ""
    ensures HasIssueAt(issues, "date") <==> v.date == ""
    ensures HasIssueAt(issues, "location") <==> v.location == ""
    ensures HasIssueAt(issues, "description") <==> v.description == ""
  {
    var a := Required(v.title, "title", "Title is required");
    var b := Required(v.date, "date", "Date is required");
    var c := Required(v.location, "location", "Location is required");
    var d := Required(v.description, "description", "Description is required");
    forall path: string
      ensures HasIssueAt(a + b + c + d, path) <==>
        (path == "title" && v.title == "") || (path == "date" && v.date == "")
        || (path == "location" && v.location == "")
        || (path == "description" && v.description == "")
    {
      HasIssueAtConcat(a + b + c, d, path);
      HasIssueAtConcat(a + b, c, path);
      HasIssueAtConcat(a, b, path);
      HasIssueAtRule(v.title != "", "title", "Title is required", path);
      HasIssueAtRule(v.date != "", "date", "Date is required", path);
      HasIssueAtRule(v.location != "", "location", "Location is required", path);
      HasIssueAtRule(v.description != "", "description", "Description is required", path);
    }
    a + b + c + d
  }

  /** The default values: the donation's texts (the date verbatim), or `""`. */
  function Defaults(initialData: Option<Types.Donation>): (v: DonationValues)
    ensures v.image == Undefined
    ensures initialData.None? ==> v == DonationValues("", "", "", "", Undefined)
    ensures initialData.Some? ==>
      && v.title == initialData.value.title && v.date == initialData.value.date
      && v.location == initialData.value.location
      && v.description == initialData.value.description
  {
    match initialData
    case None => DonationValues("", "", "", "", Undefined)
    case Some(d) =>
      DonationValues(
        if d.title != "" then d.title else "",
        if d.date != "" then d.date else "",
        if d.location != "" then d.location else "",
        if d.description != "" then d.description else "",
        Undefined)
  }

  /** `Object.entries(values)` for the parsed values, in schema order. */
  function Fields(v: DonationValues): seq<Field> {
    [Field("title", Str(v.title)), Field("date", Str(v.date)),
     Field("location", Str(v.location)), Field("description", Str(v.description)),
     Field(ImageKey, v.image)]
  }

  lemma FieldsFacts(v: DonationValues)
    ensures DistinctKeys(Fields(v))
    ensures ValueOf(Fields(v), ImageKey) == v.image
    ensures FieldEntries(Fields(v)) == [
      Entry("title", TextPart(v.title)), Entry("date", TextPart(v.date)),
      Entry("location", TextPart(v.location)), Entry("description", TextPart(v.description))]
  {
    var fs := Fields(v);
    ValueOfAt(fs, 4);
    assert fs == fs[..4] + [fs[4]];
    FieldEntriesConcat(fs[..4], [fs[4]]);
    FieldEntriesAllAppended(fs[..4]);
  }

  /**
   * The submit handler's payload: the four texts in schema order, then the
   * image exactly when one was chosen.
   */
  function Payload(v: DonationValues): (r: seq<Entry>)
    ensures |r| == (if Truthy(v.image) then 5 else 4)
    ensures r[..4] == [
      Entry("title", TextPart(v.title)), Entry("date", TextPart(v.date)),
      Entry("location", TextPart(v.location)), Entry("description", TextPart(v.description))]
    ensures Truthy(v.image) ==> r[4] == Entry(ImageKey, ToPart(v.image))
  {
    FieldsFacts(v);
    BuildPayload(Fields(v))
  }

  /** Each text key is sent once; `image` once when chosen and otherwise not at all. */
  lemma PayloadKeysOnce(v: DonationValues, key: string)
    ensures key in ["title", "date", "location", "description"] ==>
      CountKey(Payload(v), key) == 1
    ensures key == ImageKey ==> CountKey(Payload(v), key) == (if Truthy(v.image) then 1 else 0)
    ensures key !in ["title", "date", "location", "description", ImageKey] ==>
      CountKey(Payload(v), key) == 0
  {
    var fs := Fields(v);
    FieldsFacts(v);
    PayloadKeyCount(fs, key);
    ValueOfAt(fs, 0);
    ValueOfAt(fs, 1);
    ValueOfAt(fs, 2);
    ValueOfAt(fs, 3);
    if key !in ["title", "date", "location", "description", ImageKey] {
      forall i | 0 <= i < |fs| ensures fs[i].key != key { }
      ValueOfAbsent(fs, key);
    }
  }
}
