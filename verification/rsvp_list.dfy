/**
 * The attendee list of an expanded event (src/pages/events/components/rsvp-list.tsx):
 * an inline RSVP form for adding or editing, a delete confirmation, and the
 * CSV export. Unlike the record pages, the record being edited and the
 * record picked for deletion are kept apart.
 */
module RsvpList {
  import opened Wrappers
  import opened Types
  import Endpoints
  import Text
  import Csv

  /** The list's UI state; records are held by id. */
  datatype ListState = ListState(
    showForm: bool, editing: Option<string>, deleteOpen: bool, selected: Option<string>)

  const Initial := ListState(false, None, false, None)

  /** The attendees shown: the ones passed in, or none while they are missing. */
  function Rsvps(eventRsvps: Option<seq<RsvpEntry>>): (r: seq<RsvpEntry>)
    ensures eventRsvps.None? ==> r == []
    ensures eventRsvps.Some? ==> r == eventRsvps.value
  {
    eventRsvps.GetOr([])
  }

  /** "Add Attendee" shows the form and nothing else. */
  function OpenAdd(st: ListState): (r: ListState)
    ensures r.showForm && r.editing == st.editing
    ensures r.deleteOpen == st.deleteOpen && r.selected == st.selected
  {
    st.(showForm := true)
  }

  /** The edit button of a row loads that attendee into the form. */
  function OpenEdit(st: ListState, id: string): (r: ListState)
    ensures r.showForm && r.editing == Some(id)
    ensures r.deleteOpen == st.deleteOpen && r.selected == st.selected
  {
    st.(showForm := true, editing := Some(id))
  }

  /** The delete button of a row picks that attendee and asks for confirmation. */
  function OpenDelete(st: ListState, id: string): (r: ListState)
    ensures r.deleteOpen && r.selected == Some(id)
    ensures r.showForm == st.showForm && r.editing == st.editing
  {
    st.(deleteOpen := true, selected := Some(id))
  }

  /** Cancelling the form hides it and forgets the attendee being edited. */
  function CancelForm(st: ListState): (r: ListState)
    ensures !r.showForm && r.editing == None
    ensures r.deleteOpen == st.deleteOpen && r.selected == st.selected
  {
    st.(showForm := false, editing := None)
  }

  /** Dismissing the confirmation only closes it; the picked attendee stays picked. */
  function CancelDelete(st: ListState): (r: ListState)
    ensures !r.deleteOpen && r.selected == st.selected
    ensures r.showForm == st.showForm && r.editing == st.editing
  {
    st.(deleteOpen := false)
  }

  /** The request a handler sends, if any, and the state once it has settled. */
  datatype Step = Step(request: Option<Endpoints.Op>, next: ListState)

  /**
   * Submitting the form updates the attendee being edited, or registers a new
   * one for the event. Success hides the form and forgets the attendee; a
   * failure leaves everything as it was.
   */
  function HandleSubmit(eventId: string, st: ListState, outcome: Outcome): (step: Step)
    ensures st.editing.Some? ==> step.request == Some(Endpoints.UpdateRsvp(eventId, st.editing.value))
    ensures st.editing.None? ==> step.request == Some(Endpoints.SubmitRsvp(eventId))
    ensures outcome.Ok? ==> !step.next.showForm && step.next.editing == None
    ensures outcome.Ok? ==> step.next.deleteOpen == st.deleteOpen && step.next.selected == st.selected
    ensures outcome.Err? ==> step.next == st
  {
    var request := match st.editing
      case Some(id) => Endpoints.UpdateRsvp(eventId, id)
      case None => Endpoints.SubmitRsvp(eventId);
    Step(Some(request), if outcome.Ok? then st.(showForm := false, editing := None) else st)
  }

  /**
   * Confirming the deletion removes the picked attendee; with none picked it
   * does nothing. Success closes the dialog and forgets the attendee.
   */
  function HandleDelete(eventId: string, st: ListState, outcome: Outcome): (step: Step)
    ensures st.selected.None? ==> step == Step(None, st)
    ensures st.selected.Some? ==> step.request == Some(Endpoints.DeleteRsvp(eventId, st.selected.value))
    ensures st.selected.Some? && outcome.Ok? ==> !step.next.deleteOpen && step.next.selected == None
    ensures st.selected.Some? && outcome.Ok? ==>
      step.next.showForm == st.showForm && step.next.editing == st.editing
    ensures outcome.Err? ==> step.next == st
  {
    match st.selected
    case None => Step(None, st)
    case Some(id) =>
      Step(Some(Endpoints.DeleteRsvp(eventId, id)),
        if outcome.Ok? then st.(deleteOpen := false, selected := None) else st)
  }

  /**
   * Because editing and deleting keep separate selections, a cancelled delete
   * does not turn "Add Attendee" into an edit: from a fresh list the form
   * registers a new attendee with `POST /events/<event>/rsvp`, and an edit
   * sends `PUT /events/<event>/rsvp/<id>`.
   */
  lemma CancelledDeleteStillAdds(eventId: string, id: string, outcome: Outcome)
    ensures var st := OpenAdd(CancelDelete(OpenDelete(Initial, id)));
      Endpoints.Route(HandleSubmit(eventId, st, outcome).request.value)
        == Some(Endpoints.Request(Endpoints.Post, "/events/" + eventId + "/rsvp"))
    ensures Endpoints.Route(HandleSubmit(eventId, OpenEdit(Initial, id), outcome).request.value)
        == Some(Endpoints.Request(Endpoints.Put, "/events/" + eventId + "/rsvp/" + id))
  {
    Endpoints.RsvpRoutes(eventId);
    Endpoints.RsvpItemRoutes(eventId, id);
  }

  /**
   * Deleting an attendee sends `DELETE /events/<event>/rsvp/<id>`; once it
   * succeeds a second confirmation sends nothing.
   */
  lemma DeleteRoute(eventId: string, st: ListState, id: string)
    ensures Endpoints.Route(HandleDelete(eventId, OpenDelete(st, id), Ok).request.value)
        == Some(Endpoints.Request(Endpoints.Delete, "/events/" + eventId + "/rsvp/" + id))
    ensures HandleDelete(eventId, HandleDelete(eventId, OpenDelete(st, id), Ok).next, Ok).request == None
  {
    Endpoints.RsvpItemRoutes(eventId, id);
  }

  // ---------------------------------------------------------------------------
  // Export
  // ---------------------------------------------------------------------------

  const Headers: seq<string> := ["Full Name", "Email", "M-Pesa Phone", "WhatsApp", "Registration Date"]

  /** The header line of the export. */
  const HeaderText := "Full Name,Email,M-Pesa Phone,WhatsApp,Registration Date"

  /**
   * The cells of one attendee; `formatDate` stands for the
   * `yyyy-MM-dd HH:mm:ss` rendering of the registration time.
   */
  function Cells(r: RsvpEntry, formatDate: string -> string): (cells: seq<string>)
    ensures |cells| == |Headers|
    ensures cells[0] == r.fullName && cells[1] == r.email
    ensures cells[2] == r.mpesaPhone && cells[3] == r.whatsappPhone
    ensures cells[4] == formatDate(r.createdAt)
  {
    [r.fullName, r.email, r.mpesaPhone, r.whatsappPhone, formatDate(r.createdAt)]
  }

  /**
   * The exported attendee sheet: it opens with the header line, and while
   * the attendees are missing it is the header line alone.
   */
  function Export(eventRsvps: Option<seq<RsvpEntry>>, formatDate: string -> string): (text: string)
    ensures |text| >= |HeaderText| && text[..|HeaderText|] == HeaderText
    ensures eventRsvps.None? ==> text == HeaderText
  {
    HeaderLine();
    Csv.Document(Headers, Csv.Rows(Rsvps(eventRsvps), x => Cells(x, formatDate)))
  }

  /**
   * The file name of the download: the event's title, rendered `undefined`
   * when the event is not among the loaded ones, a marker and the day.
   */
  function FileName(eventTitle: Option<string>, today: string): (name: string)
    ensures var t := eventTitle.GetOr("undefined");
      |name| == |t| + |"_attendees_"| + |today| + 4 && name[..|t|] == t
    ensures name[|name| - 4..] == ".csv"
  {
    eventTitle.GetOr("undefined") + "_attendees_" + today + ".csv"
  }

  /** No field of any attendee, nor the formatted date, contains `c`. */
  predicate FieldsFree(rsvps: seq<RsvpEntry>, formatDate: string -> string, c: char) {
    forall i :: 0 <= i < |rsvps| ==> Text.SeparatorFree(Cells(rsvps[i], formatDate), c)
  }

  /** The header line is the five column names joined by commas, one line. */
  lemma HeaderLine()
    ensures Text.Join(Headers, ',') == "Full Name,Email,M-Pesa Phone,WhatsApp,Registration Date"
    ensures Text.SeparatorFree(Headers, '\n')
  {
    Text.JoinFive("Full Name", "Email", "M-Pesa Phone", "WhatsApp", "Registration Date", ',');
    assert "Full Name" + [','] + "Email" == "Full Name,Email";
    assert "Full Name,Email" + [','] + "M-Pesa Phone" == "Full Name,Email,M-Pesa Phone";
    assert "Full Name,Email,M-Pesa Phone" + [','] + "WhatsApp" == "Full Name,Email,M-Pesa Phone,WhatsApp";
    assert "Full Name,Email,M-Pesa Phone,WhatsApp" + [','] + "Registration Date"
        == "Full Name,Email,M-Pesa Phone,WhatsApp,Registration Date";
  }

  /**
   * The export starts with the fixed header line and, when no field holds a
   * line feed or a comma, has one more line per attendee that reads back as
   * that attendee's cells; with no attendees passed in it is the header alone.
   */
  lemma ExportReadsBack(eventRsvps: Option<seq<RsvpEntry>>, formatDate: string -> string)
    requires FieldsFree(Rsvps(eventRsvps), formatDate, '\n')
    requires FieldsFree(Rsvps(eventRsvps), formatDate, ',')
    ensures var lines := Text.Split(Export(eventRsvps, formatDate), '\n');
      && |lines| == |Rsvps(eventRsvps)| + 1
      && lines[0] == HeaderText
      && forall i :: 0 <= i < |Rsvps(eventRsvps)| ==>
           Csv.ParseRow(lines[i + 1]) == Cells(Rsvps(eventRsvps)[i], formatDate)
  {
    var rows := Csv.Rows(Rsvps(eventRsvps), x => Cells(x, formatDate));
    HeaderLine();
    assert Csv.CellsFree(rows, '\n') && Csv.CellsFree(rows, ',');
    Csv.DocumentLines(Headers, rows);
    Csv.DocumentReadBack(Headers, rows);
  }
}
