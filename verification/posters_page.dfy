/**
 * The posters page (src/pages/posters/page.tsx): the shared dialog lifecycle applied to
 * posters, with a preview dialog and the active switch.
 */
module PostersPage {
  import opened Wrappers
  import opened CrudPage
  import Endpoints

  const Res := Endpoints.Posters
  const Noun := "Poster"

  /**
   * Saving an edited poster sends `PUT /posters/<id>`, deleting one sends
   * `DELETE /posters/<id>`, and a fresh modal sends `POST /posters`. Closing the
   * modal or the preview dialog clears the selection, but cancelling a delete does not,
   * so "Add Poster" then opens as "Edit Poster".
   */
  lemma Lifecycle(st: Dialogs, id: string, outcome: Outcome)
    ensures Endpoints.Route(HandleCreateUpdate(Res, OpenEdit(st, id), outcome).request.value)
         == Some(Endpoints.Request(Endpoints.Put, "/posters/" + id))
    ensures Endpoints.Route(HandleDelete(Res, OpenDelete(st, id), outcome).request.value)
         == Some(Endpoints.Request(Endpoints.Delete, "/posters/" + id))
    ensures Endpoints.Route(HandleCreateUpdate(Res, CloseForm(st), outcome).request.value)
         == Some(Endpoints.Request(Endpoints.Post, "/posters"))
    ensures ModalTitle(Noun, OpenAdd(CloseForm(OpenEdit(st, id)))) == "Add Poster"
    ensures ModalTitle(Noun, OpenAdd(CloseView(OpenView(st, id)))) == "Add Poster"
    ensures ModalTitle(Noun, OpenAdd(CancelDelete(OpenDelete(st, id)))) == "Edit Poster"
  {
    RoutedRequests(Res, st, id, outcome);
    assert "/" + "posters" + "/" + id == "/posters/" + id;
    assert "/" + "posters" == "/posters";
  }

  /**
   * The active-switch on a poster card sends `PATCH /posters/<id>/toggle` and
   * leaves every dialog and the selection as they were, whether or not the
   * request succeeds.
   */
  function HandleToggle(st: Dialogs, id: string, outcome: Outcome): (step: Step)
    ensures step.request == Some(Endpoints.TogglePoster(id))
    ensures step.next == st
  {
    Step(Some(Endpoints.TogglePoster(id)), st)
  }

  /** Toggling a poster is a `PATCH` on its toggle path and never touches an open form. */
  lemma ToggleKeepsEditing(st: Dialogs, id: string, other: string, outcome: Outcome)
    ensures Endpoints.Route(HandleToggle(st, id, outcome).request.value)
         == Some(Endpoints.Request(Endpoints.Patch, "/posters/" + id + "/toggle"))
    ensures var s := HandleToggle(OpenEdit(st, other), id, outcome).next;
      s.formOpen && s.selected == Some(other) && ModalTitle(Noun, s) == "Edit Poster"
  {
    Endpoints.ToggleRoute(id);
  }
}
