/**
 * The partner form (src/pages/partners/components/partner-form.tsx): a
 * required name and an optional logo. Its submit handler appends the name and
 * then the logo by hand rather than looping over the values.
 */
module PartnerForm {
  import opened Wrappers
  import opened Validation
  import opened FormData
  import Types

  datatype PartnerValues = PartnerValues(name: string, logo: JsValue)

  const LogoKey := "logo"

  function Validate(v: PartnerValues): (issues: seq<Issue>)
    ensures issues == [] <==> v.name != ""
    ensures v.name == "" ==> issues == [Issue("name", "Name is required")]
  {
    Required(v.name, "name", "Name is required")
  }

  /** The default values: the partner's name, or `""`; no logo is preselected. */
  function Defaults(initialData: Option<Types.Partner>): (v: PartnerValues)
    ensures v.logo == Undefined
    ensures initialData.None? ==> v.name == ""
    ensures initialData.Some? ==> v.name == initialData.value.name
  {
    match initialData
    case None => PartnerValues("", Undefined)
    case Some(p) => PartnerValues(if p.name != "" then p.name else "", Undefined)
  }

  /** The payload: the name first, then the logo when one was chosen. */
  function Payload(v: PartnerValues): (r: seq<Entry>)
    ensures 1 <= |r| <= 2
    ensures r[0] == Entry("name", TextPart(v.name))
    ensures |r| == 2 <==> Truthy(v.logo)
    ensures |r| == 2 ==> r[1] == Entry(LogoKey, ToPart(v.logo))
  {
    [Entry("name", TextPart(v.name))]
      + (if Truthy(v.logo) then [Entry(LogoKey, ToPart(v.logo))] else [])
  }

  /** `name` is sent exactly once, `logo` once iff chosen, and nothing else. */
  lemma PayloadKeysOnce(v: PartnerValues, key: string)
    ensures key == "name" ==> CountKey(Payload(v), key) == 1
    ensures key == LogoKey ==> CountKey(Payload(v), key) == (if Truthy(v.logo) then 1 else 0)
    ensures key != "name" && key != LogoKey ==> CountKey(Payload(v), key) == 0
  {
    var r := Payload(v);
    var tail := r[1..];
    assert CountKey(r, key) == (if key == "name" then 1 else 0) + CountKey(tail, key);
    if Truthy(v.logo) {
      assert tail == [Entry(LogoKey, ToPart(v.logo))];
      assert CountKey(tail, key) == (if key == LogoKey then 1 else 0) + CountKey(tail[1..], key);
      assert tail[1..] == [];
    } else {
      assert tail == [];
    }
  }
}
