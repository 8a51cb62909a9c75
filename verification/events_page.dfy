/**
 * The events page (src/pages/events/page.tsx): the shared dialog lifecycle applied to
 * events, with the expandable RSVP list.
 */
module EventsPage {
  import opened Wrappers
  import opened CrudPage
  import Endpoints

  const Res := Endpoints.Events
  const Noun := "Event"

  /**
   * Saving an edited event sends `PUT /events/<id>`, deleting one sends
   * `DELETE /events/<id>`, and a fresh modal sends `POST /events`. Closing the
   * modal clears the selection, but cancelling a delete does not,
   * so "Add Event" then opens as "Edit Event".
   */
  lemma Lifecycle(st: Dialogs, id: string, outcome: Outcome)
    ensures Endpoints.Route(HandleCreateUpdate(Res, OpenEdit(st, id), outcome).request.value)
         == Some(Endpoints.Request(Endpoints.Put, "/events/" + id))
    ensures Endpoints.Route(HandleDelete(Res, OpenDelete(st, id), outcome).request.value)
         == Some(Endpoints.Request(Endpoints.Delete, "/events/" + id))
    ensures Endpoints.Route(HandleCreateUpdate(Res, CloseForm(st), outcome).request.value)
         == Some(Endpoints.Request(Endpoints.Post, "/events"))
    ensures ModalTitle(Noun, OpenAdd(CloseForm(OpenEdit(st, id)))) == "Add Event"
    ensures ModalTitle(Noun, OpenAdd(CancelDelete(OpenDelete(st, id)))) == "Edit Event"
  {
    RoutedRequests(Res, st, id, outcome);
    assert "/" + "events" + "/" + id == "/events/" + id;
    assert "/" + "events" == "/events";
  }

  /**
   * The "RSVPs" button of an event card: a non-empty id fetches that event's
   * RSVPs; the expanded event becomes that id, or none when it was already
   * expanded.
   */
  function ToggleRsvps(expanded: Option<string>, eventId: string): (r: (Option<Endpoints.Op>, Option<string>))
    ensures r.0.Some? <==> eventId != ""
    ensures r.0.Some? ==> r.0.value == Endpoints.GetRsvps(eventId)
    ensures r.1 == Some(eventId) <==> expanded != Some(eventId)
    ensures r.1 != Some(eventId) ==> r.1 == None
  {
    var fetch := if eventId != "" then Some(Endpoints.GetRsvps(eventId)) else None;
    (fetch, if expanded == Some(eventId) then None else Some(eventId))
  }

  /** The RSVP list renders only while a truthy (non-empty) event id is expanded. */
  predicate ShowsRsvpList(expanded: Option<string>) {
    expanded.Some? && expanded.value != ""
  }

  /**
   * After a press the list is shown exactly when the pressed event has a
   * truthy id and was not already the expanded one.
   */
  lemma ListFollowsToggle(expanded: Option<string>, eventId: string)
    ensures ShowsRsvpList(ToggleRsvps(expanded, eventId).1) <==> eventId != "" && expanded != Some(eventId)
    ensures !ShowsRsvpList(None)
  {
  }

  /**
   * Pressing the same event's button twice opens then closes its list and
   * fetches both times, the closing press included; pressing another event
   * moves the list to that event.
   */
  lemma ToggleRsvpsTwice(expanded: Option<string>, a: string, b: string)
    requires a != "" && a != b
    ensures var (f1, e1) := ToggleRsvps(None, a);
      var (f2, e2) := ToggleRsvps(e1, a);
      && ShowsRsvpList(e1) && !ShowsRsvpList(e2)
      && Endpoints.Route(f2.value) == Some(Endpoints.Request(Endpoints.Get, "/events/" + a + "/rsvp"))
    ensures ToggleRsvps(Some(a), b).1 == Some(b)
  {
    Endpoints.RsvpRoutes(a);
  }
}
