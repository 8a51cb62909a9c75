/**
 * The donations page (src/pages/donations/page.tsx): the shared dialog lifecycle applied to
 * donations, with a view dialog.
 */
module DonationsPage {
  import opened Wrappers
  import opened CrudPage
  import Endpoints

  const Res := Endpoints.Donations
  const Noun := "Donation"

  /**
   * Saving an edited donation sends `PUT /donations/<id>`, deleting one sends
   * `DELETE /donations/<id>`, and a fresh modal sends `POST /donations`. Closing the
   * modal or the view dialog clears the selection, but cancelling a delete does not,
   * so "Add Donation" then opens as "Edit Donation".
   */
  lemma Lifecycle(st: Dialogs, id: string, outcome: Outcome)
    ensures Endpoints.Route(HandleCreateUpdate(Res, OpenEdit(st, id), outcome).request.value)
         == Some(Endpoints.Request(Endpoints.Put, "/donations/" + id))
    ensures Endpoints.Route(HandleDelete(Res, OpenDelete(st, id), outcome).request.value)
         == Some(Endpoints.Request(Endpoints.Delete, "/donations/" + id))
    ensures Endpoints.Route(HandleCreateUpdate(Res, CloseForm(st), outcome).request.value)
         == Some(Endpoints.Request(Endpoints.Post, "/donations"))
    ensures ModalTitle(Noun, OpenAdd(CloseForm(OpenEdit(st, id)))) == "Add Donation"
    ensures ModalTitle(Noun, OpenAdd(CloseView(OpenView(st, id)))) == "Add Donation"
    ensures ModalTitle(Noun, OpenAdd(CancelDelete(OpenDelete(st, id)))) == "Edit Donation"
  {
    RoutedRequests(Res, st, id, outcome);
    assert "/" + "donations" + "/" + id == "/donations/" + id;
    assert "/" + "donations" == "/donations";
  }
}
