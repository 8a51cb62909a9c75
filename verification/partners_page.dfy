/**
 * The partners page (src/pages/partners/page.tsx): the shared dialog lifecycle applied to
 * partners; it has no view dialog.
 */
module PartnersPage {
  import opened Wrappers
  import opened CrudPage
  import Endpoints

  const Res := Endpoints.Partners
  const Noun := "Partner"

  /**
   * Saving an edited partner sends `PUT /partners/<id>`, deleting one sends
   * `DELETE /partners/<id>`, and a fresh modal sends `POST /partners`. Closing the
   * modal clears the selection, but cancelling a delete does not,
   * so "Add Partner" then opens as "Edit Partner".
   */
  lemma Lifecycle(st: Dialogs, id: string, outcome: Outcome)
    ensures Endpoints.Route(HandleCreateUpdate(Res, OpenEdit(st, id), outcome).request.value)
         == Some(Endpoints.Request(Endpoints.Put, "/partners/" + id))
    ensures Endpoints.Route(HandleDelete(Res, OpenDelete(st, id), outcome).request.value)
         == Some(Endpoints.Request(Endpoints.Delete, "/partners/" + id))
    ensures Endpoints.Route(HandleCreateUpdate(Res, CloseForm(st), outcome).request.value)
         == Some(Endpoints.Request(Endpoints.Post, "/partners"))
    ensures ModalTitle(Noun, OpenAdd(CloseForm(OpenEdit(st, id)))) == "Add Partner"
    ensures ModalTitle(Noun, OpenAdd(CancelDelete(OpenDelete(st, id)))) == "Edit Partner"
  {
    RoutedRequests(Res, st, id, outcome);
    assert "/" + "partners" + "/" + id == "/partners/" + id;
    assert "/" + "partners" == "/partners";
  }
}
