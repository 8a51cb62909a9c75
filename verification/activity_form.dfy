/**
 * The activity form (src/pages/activities/components/activity-form.tsx):
 * three required texts and an optional image, sent as a multipart payload.
 */
module ActivityForm {
  import opened Wrappers
  import opened Validation
  import opened FormData
  import Types

  datatype ActivityValues = ActivityValues(
    title: string, date: string, description: string, image: JsValue)

  /** The schema: each text field is required and reports its own message. */
  function Validate(v: ActivityValues): (issues: seq<Issue>)
    ensures issues == [] <==> v.title != "" && v.date != "" && v.description != ""
    ensures HasIssueAt(issues, "title") <==> v.title == ""
    ensures HasIssueAt(issues, "date") <==> v.date == ""
    ensures HasIssueAt(issues, "description") <==> v.description == ""
  {
    var a := Required(v.title, "title", "Title is required");
    var b := Required(v.date, "date", "Date is required");
    var c := Required(v.description, "description", "Description is required");
    forall path: string
      ensures HasIssueAt(a + b + c, path) <==>
        (path == "title" && v.title == "") || (path == "date" && v.date == "")
        || (path == "description" && v.description == "")
    {
      HasIssueAtConcat(a + b, c, path);
      HasIssueAtConcat(a, b, path);
      HasIssueAtRule(v.title != "", "title", "Title is required", path);
      HasIssueAtRule(v.date != "", "date", "Date is required", path);
      HasIssueAtRule(v.description != "", "description", "Description is required", path);
    }
    a + b + c
  }

  /** The default values: the activity's texts, or `""`. */
  function Defaults(initialData: Option<Types.Activity>): (v: ActivityValues)
    ensures v.image == Undefined
    ensures initialData.None? ==> v == ActivityValues("", "", "", Undefined)
    ensures initialData.Some? ==>
      && v.title == initialData.value.title && v.date == initialData.value.date
      && v.description == initialData.value.description
  {
    match initialData
    case None => ActivityValues("", "", "", Undefined)
    case Some(a) =>
      ActivityValues(
        if a.title != "" then a.title else "",
        if a.date != "" then a.date else "",
        if a.description != "" then a.description else "",
        Undefined)
  }

  /** `Object.entries(values)` for the parsed values, in schema order. */
  function Fields(v: ActivityValues): seq<Field> {
    [Field("title", Str(v.title)), Field("date", Str(v.date)),
     Field("description", Str(v.description)), Field(ImageKey, v.image)]
  }

  lemma FieldsFacts(v: ActivityValues)
    ensures DistinctKeys(Fields(v))
    ensures ValueOf(Fields(v), ImageKey) == v.image
    ensures FieldEntries(Fields(v)) == [
      Entry("title", TextPart(v.title)), Entry("date", TextPart(v.date)),
      Entry("description", TextPart(v.description))]
  {
    var fs := Fields(v);
    ValueOfAt(fs, 3);
    assert fs == fs[..3] + [fs[3]];
    FieldEntriesConcat(fs[..3], [fs[3]]);
    FieldEntriesAllAppended(fs[..3]);
  }

  /**
   * The submit handler's payload: the three texts in schema order, then the
   * image exactly when one was chosen.
   */
  function Payload(v: ActivityValues): (r: seq<Entry>)
    ensures |r| == (if Truthy(v.image) then 4 else 3)
    ensures r[..3] == [
      Entry("title", TextPart(v.title)), Entry("date", TextPart(v.date)),
      Entry("description", TextPart(v.description))]
    ensures Truthy(v.image) ==> r[3] == Entry(ImageKey, ToPart(v.image))
  {
    FieldsFacts(v);
    BuildPayload(Fields(v))
  }

  /**
   * Each text key is sent once, `image` once when chosen, and no key outside
   * `title`, `date`, `description` and `image` is ever sent.
   */
  lemma PayloadKeysOnce(v: ActivityValues, key: string)
    ensures key in ["title", "date", "description"] ==> CountKey(Payload(v), key) == 1
    ensures key == ImageKey ==> CountKey(Payload(v), key) == (if Truthy(v.image) then 1 else 0)
    ensures key !in ["title", "date", "description", ImageKey] ==> CountKey(Payload(v), key) == 0
  {
    var fs := Fields(v);
    FieldsFacts(v);
    PayloadKeyCount(fs, key);
    ValueOfAt(fs, 0);
    ValueOfAt(fs, 1);
    ValueOfAt(fs, 2);
    if key !in ["title", "date", "description", ImageKey] {
      forall i | 0 <= i < |fs| ensures fs[i].key != key { }
      ValueOfAbsent(fs, key);
    }
  }
}
