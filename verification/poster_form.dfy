/**
 * The poster form (src/pages/posters/components/poster-form.tsx): its schema,
 * its default values and the multipart payload its submit handler builds.
 * `today` is the `YYYY-MM-DD` string fixed once when the module loads.
 */
module PosterForm {
  import opened Wrappers
  import opened Text
  import opened Validation
  import opened FormData
  import Types

  datatype PosterValues = PosterValues(
    title: string, startDate: string, endDate: string, active: bool, image: JsValue)

  /**
   * The schema: a title, and two non-empty dates neither of which is before
   * `today`, then the object-level rule that the end is not before the start,
   * reported under `endDate`.
   */
  function Validate(v: PosterValues, today: string): (issues: seq<Issue>)
    ensures issues == [] <==>
      && v.title != ""
      && v.startDate != "" && LexGe(v.startDate, today)
      && v.endDate != "" && LexGe(v.endDate, today)
      && LexGe(v.endDate, v.startDate)
    ensures HasIssueAt(issues, "title") <==> v.title == ""
    ensures LexGt(v.startDate, v.endDate) ==>
      Issue("endDate", "End date must be after start date") in issues
  {
    var r :=
      Required(v.title, "title", "Title is required")
      + Required(v.startDate, "startDate", "Start date is required")
      + Rule(LexGe(v.startDate, today), "startDate", "Start date cannot be in the past")
      + Required(v.endDate, "endDate", "End date is required")
      + Rule(LexGe(v.endDate, today), "endDate", "End date cannot be in the past")
      + Rule(LexGe(v.endDate, v.startDate), "endDate", "End date must be after start date");
    assert LexGt(v.startDate, v.endDate) ==> !LexGe(v.endDate, v.startDate) by {
      LexCompareAntisymmetric(v.startDate, v.endDate);
    }
    assert v.title == "" ==> r[0].path == "title";
    r
  }

  /** A poster may start and end on the same day. */
  lemma SameDayAccepted(v: PosterValues, today: string)
    requires v.title != "" && v.startDate != "" && LexGe(v.startDate, today)
    requires v.endDate == v.startDate
    ensures Validate(v, today) == []
  {
  }

  /**
   * An empty date fails twice: it is reported as missing and, since the empty
   * string sorts before any date, as lying in the past.
   */
  lemma EmptyStartDateReportedTwice(v: PosterValues, today: string)
    requires v.startDate == "" && today != ""
    ensures Issue("startDate", "Start date is required") in Validate(v, today)
    ensures Issue("startDate", "Start date cannot be in the past") in Validate(v, today)
  {
    var a := Required(v.title, "title", "Title is required");
    var b := [Issue("startDate", "Start date is required")];
    var c := [Issue("startDate", "Start date cannot be in the past")];
    var r := Validate(v, today);
    assert r[|a|] == b[0] && r[|a| + 1] == c[0];
  }

  /**
   * The default values. Text fields fall back to `""`; `active` uses
   * `initialData?.active || true`, which is `true` whatever the poster says.
   */
  function Defaults(initialData: Option<Types.Poster>): (v: PosterValues)
    ensures v.active
    ensures v.image == Undefined
    ensures initialData.None? ==> v.title == "" && v.startDate == "" && v.endDate == ""
    ensures initialData.Some? ==>
      && v.startDate == initialData.value.startDate
      && v.endDate == initialData.value.endDate
      && v.title == initialData.value.title.GetOr("")
  {
    match initialData
    case None => PosterValues("", "", "", true, Undefined)
    case Some(p) =>
      var title := if p.title.Some? && p.title.value != "" then p.title.value else "";
      var startDate := if p.startDate != "" then p.startDate else "";
      var endDate := if p.endDate != "" then p.endDate else "";
      PosterValues(title, startDate, endDate, true, Undefined)
  }

  /** Editing an inactive poster still opens the form with `active` switched on. */
  lemma InactivePosterDefaultsToActive(p: Types.Poster)
    requires !p.active
    ensures Defaults(Some(p)).active != p.active
  {
  }

  /** `Object.entries(values)` for the parsed values, in schema order. */
  function Fields(v: PosterValues): seq<Field> {
    [Field("title", Str(v.title)), Field("startDate", Str(v.startDate)),
     Field("endDate", Str(v.endDate)), Field("active", Bool(v.active)),
     Field(ImageKey, v.image)]
  }

  /** The field list has distinct keys, the image last and the other four appended. */
  lemma FieldsFacts(v: PosterValues)
    ensures DistinctKeys(Fields(v))
    ensures ValueOf(Fields(v), ImageKey) == v.image
    ensures FieldEntries(Fields(v)) == [
      Entry("title", TextPart(v.title)), Entry("startDate", TextPart(v.startDate)),
      Entry("endDate", TextPart(v.endDate)),
      Entry("active", TextPart(if v.active then "true" else "false"))]
  {
    var fs := Fields(v);
    ValueOfAt(fs, 4);
    assert fs == fs[..4] + [fs[4]];
    FieldEntriesConcat(fs[..4], [fs[4]]);
    FieldEntriesAllAppended(fs[..4]);
  }

  /**
   * The submit handler: nothing is sent when the start is after the end;
   * otherwise the four fields as text, `active` as `"true"` or `"false"`,
   * then the image when one was chosen.
   */
  function HandleSubmit(v: PosterValues): (payload: Option<seq<Entry>>)
    ensures payload.None? <==> LexGt(v.startDate, v.endDate)
    ensures payload.Some? ==>
      && |payload.value| >= 4
      && payload.value[..4] == [
           Entry("title", TextPart(v.title)), Entry("startDate", TextPart(v.startDate)),
           Entry("endDate", TextPart(v.endDate)),
           Entry("active", TextPart(if v.active then "true" else "false"))]
      && (|payload.value| == 5 <==> Truthy(v.image))
      && (|payload.value| == 5 ==> payload.value[4] == Entry(ImageKey, ToPart(v.image)))
  {
    if LexGt(v.startDate, v.endDate) then None
    else
      var fs := Fields(v);
      FieldsFacts(v);
      Some(BuildPayload(fs))
  }

  /** Values the schema accepts always get past the handler's own date check. */
  lemma ValidValuesAreSent(v: PosterValues, today: string)
    requires Validate(v, today) == []
    ensures HandleSubmit(v).Some?
  {
    LexCompareAntisymmetric(v.startDate, v.endDate);
  }

  /** The payload has each schema key at most once: a field key once, `image` iff chosen. */
  lemma PayloadKeysOnce(v: PosterValues, key: string)
    requires HandleSubmit(v).Some?
    ensures key in ["title", "startDate", "endDate", "active"] ==>
      CountKey(HandleSubmit(v).value, key) == 1
    ensures key == ImageKey ==>
      CountKey(HandleSubmit(v).value, key) == (if Truthy(v.image) then 1 else 0)
  {
    var fs := Fields(v);
    FieldsFacts(v);
    PayloadKeyCount(fs, key);
    ValueOfAt(fs, 0);
    ValueOfAt(fs, 1);
    ValueOfAt(fs, 2);
    ValueOfAt(fs, 3);
  }
}
