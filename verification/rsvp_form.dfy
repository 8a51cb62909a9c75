/**
 * The RSVP form (src/pages/events/components/rsvp-form.tsx): a full name, an
 * e-mail address and two Kenyan phone numbers in the form `254XXXXXXXXX`.
 */
module RsvpForm {
  import opened Wrappers
  import opened Text
  import opened Validation
  import Types

  datatype RsvpValues = RsvpValues(
    fullName: string, email: string, mpesaPhone: string, whatsappPhone: string)

  const PhoneMessage := "Phone number must be in format: 254XXXXXXXXX"

  /** The pattern `^254\d{9}$`: the country code then exactly nine ASCII digits. */
  predicate IsPhone(s: string) {
    |s| == 12 && s[..3] == "254" && AllDigits(s[3..])
  }

  /** A phone number is `254` followed by nine digits, and every such string is one. */
  lemma PhoneShape(s: string, digits: string)
    ensures IsPhone("254" + digits) <==> |digits| == 9 && AllDigits(digits)
    ensures IsPhone(s) ==> s == "254" + s[3..] && |s[3..]| == 9
  {
    assert ("254" + digits)[..3] == "254";
    assert ("254" + digits)[3..] == digits;
  }

  /**
   * Every number in a local `0…` or an international `+…` format is refused,
   * and so is any valid number with something appended.
   */
  lemma OtherFormatsRejected(s: string, suffix: string)
    ensures |s| >= 1 && (s[0] == '0' || s[0] == '+') ==> !IsPhone(s)
    ensures IsPhone(s) && suffix != [] ==> !IsPhone(s + suffix)
  {
    if |s| >= 1 && IsPhone(s) {
      assert s[0] == s[..3][0];
    }
  }

  /**
   * The schema. Whether the e-mail address is well formed is decided by the
   * validation library and enters as `emailOk`.
   */
  function Validate(v: RsvpValues, emailOk: bool): (issues: seq<Issue>)
    ensures issues == [] <==>
      v.fullName != "" && emailOk && IsPhone(v.mpesaPhone) && IsPhone(v.whatsappPhone)
    ensures HasIssueAt(issues, "fullName") <==> v.fullName == ""
    ensures HasIssueAt(issues, "mpesaPhone") <==> !IsPhone(v.mpesaPhone)
    ensures HasIssueAt(issues, "whatsappPhone") <==> !IsPhone(v.whatsappPhone)
    ensures !IsPhone(v.mpesaPhone) ==> Issue("mpesaPhone", PhoneMessage) in issues
    ensures !IsPhone(v.whatsappPhone) ==> Issue("whatsappPhone", PhoneMessage) in issues
  {
    var a := Required(v.fullName, "fullName", "Full name is required");
    var b := Rule(emailOk, "email", "Invalid email address");
    var c := Rule(IsPhone(v.mpesaPhone), "mpesaPhone", PhoneMessage);
    var d := Rule(IsPhone(v.whatsappPhone), "whatsappPhone", PhoneMessage);
    forall path | path in ["fullName", "mpesaPhone", "whatsappPhone"]
      ensures HasIssueAt(a + b + c + d, path) <==>
        (path == "fullName" && v.fullName == "")
        || (path == "mpesaPhone" && !IsPhone(v.mpesaPhone))
        || (path == "whatsappPhone" && !IsPhone(v.whatsappPhone))
    {
      HasIssueAtConcat(a + b + c, d, path);
      HasIssueAtConcat(a + b, c, path);
      HasIssueAtConcat(a, b, path);
      HasIssueAtRule(v.fullName != "", "fullName", "Full name is required", path);
      HasIssueAtRule(emailOk, "email", "Invalid email address", path);
      HasIssueAtRule(IsPhone(v.mpesaPhone), "mpesaPhone", PhoneMessage, path);
      HasIssueAtRule(IsPhone(v.whatsappPhone), "whatsappPhone", PhoneMessage, path);
    }
    assert !IsPhone(v.mpesaPhone) ==> (a + b + c + d)[|a + b|] == c[0];
    assert !IsPhone(v.whatsappPhone) ==> (a + b + c + d)[|a + b + c|] == d[0];
    a + b + c + d
  }

  /** The default values: each field of the entry being edited, or `""`. */
  function Defaults(initialData: Option<Types.RsvpEntry>): (v: RsvpValues)
    ensures initialData.None? ==> v == RsvpValues("", "", "", "")
    ensures initialData.Some? ==>
      && v.fullName == initialData.value.fullName && v.email == initialData.value.email
      && v.mpesaPhone == initialData.value.mpesaPhone
      && v.whatsappPhone == initialData.value.whatsappPhone
  {
    match initialData
    case None => RsvpValues("", "", "", "")
    case Some(e) =>
      RsvpValues(
        if e.fullName != "" then e.fullName else "",
        if e.email != "" then e.email else "",
        if e.mpesaPhone != "" then e.mpesaPhone else "",
        if e.whatsappPhone != "" then e.whatsappPhone else "")
  }

  /** An untouched new-RSVP form is refused for the name and for both phones. */
  lemma UntouchedFormFails(emailOk: bool)
    ensures var issues := Validate(Defaults(None), emailOk);
      && HasIssueAt(issues, "fullName")
      && HasIssueAt(issues, "mpesaPhone")
      && HasIssueAt(issues, "whatsappPhone")
  {
  }
}
