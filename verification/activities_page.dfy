/**
 * The activities page (src/pages/activities/page.tsx): the shared dialog lifecycle applied to
 * activities, with a view dialog.
 */
module ActivitiesPage {
  import opened Wrappers
  import opened CrudPage
  import Endpoints

  const Res := Endpoints.Activities
  const Noun := "Activity"

  /**
   * Saving an edited activity sends `PUT /activities/<id>`, deleting one sends
   * `DELETE /activities/<id>`, and a fresh modal sends `POST /activities`. Closing the
   * modal or the view dialog clears the selection, but cancelling a delete does not,
   * so "Add Activity" then opens as "Edit Activity".
   */
  lemma Lifecycle(st: Dialogs, id: string, outcome: Outcome)
    ensures Endpoints.Route(HandleCreateUpdate(Res, OpenEdit(st, id), outcome).request.value)
         == Some(Endpoints.Request(Endpoints.Put, "/activities/" + id))
    ensures Endpoints.Route(HandleDelete(Res, OpenDelete(st, id), outcome).request.value)
         == Some(Endpoints.Request(Endpoints.Delete, "/activities/" + id))
    ensures Endpoints.Route(HandleCreateUpdate(Res, CloseForm(st), outcome).request.value)
         == Some(Endpoints.Request(Endpoints.Post, "/activities"))
    ensures ModalTitle(Noun, OpenAdd(CloseForm(OpenEdit(st, id)))) == "Add Activity"
    ensures ModalTitle(Noun, OpenAdd(CloseView(OpenView(st, id)))) == "Add Activity"
    ensures ModalTitle(Noun, OpenAdd(CancelDelete(OpenDelete(st, id)))) == "Edit Activity"
  {
    RoutedRequests(Res, st, id, outcome);
    assert "/" + "activities" + "/" + id == "/activities/" + id;
    assert "/" + "activities" == "/activities";
  }
}
