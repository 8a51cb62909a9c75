/**
 * The dialog lifecycle every resource page repeats (activities, donations,
 * events, partners, posters, contacts): an edit/create modal, a delete
 * confirmation, an optional view or preview dialog, and the selected record.
 * The selection is kept as the record's id, which is all the handlers send.
 * A mutation's outcome is an input: `Ok` when the request resolved, `Err`
 * when it rejected (the handlers catch the rejection and do nothing else).
 */
module CrudPage {
  import opened Wrappers
  import Endpoints

  datatype Dialogs = Dialogs(
    formOpen: bool, deleteOpen: bool, viewOpen: bool, selected: Option<string>)

  /** Everything closed and nothing selected, as the page first renders. */
  const Initial := Dialogs(false, false, false, None)

  /** The modal is titled "Edit …" and prefilled exactly when a record is selected. */
  predicate EditMode(st: Dialogs) {
    st.selected.Some?
  }

  /** The modal's title: "Edit <noun>" while a record is selected, else "Add <noun>". */
  function ModalTitle(noun: string, st: Dialogs): (title: string)
    ensures EditMode(st) ==> title == "Edit " + noun
    ensures !EditMode(st) ==> title == "Add " + noun
  {
    if st.selected.Some? then "Edit " + noun else "Add " + noun
  }

  /** The "Add …" button only opens the modal; it does not clear the selection. */
  function OpenAdd(st: Dialogs): (r: Dialogs)
    ensures r.formOpen && r.selected == st.selected
    ensures r.deleteOpen == st.deleteOpen && r.viewOpen == st.viewOpen
  {
    st.(formOpen := true)
  }

  /** A row's edit action selects the record and opens the modal. */
  function OpenEdit(st: Dialogs, id: string): (r: Dialogs)
    ensures r.formOpen && r.selected == Some(id)
    ensures r.deleteOpen == st.deleteOpen && r.viewOpen == st.viewOpen
  {
    st.(selected := Some(id), formOpen := true)
  }

  /** A row's delete action selects the record and opens the confirmation. */
  function OpenDelete(st: Dialogs, id: string): (r: Dialogs)
    ensures r.deleteOpen && r.selected == Some(id)
    ensures r.formOpen == st.formOpen && r.viewOpen == st.viewOpen
  {
    st.(selected := Some(id), deleteOpen := true)
  }

  /** A row's view (or preview) action selects the record and opens that dialog. */
  function OpenView(st: Dialogs, id: string): (r: Dialogs)
    ensures r.viewOpen && r.selected == Some(id)
    ensures r.formOpen == st.formOpen && r.deleteOpen == st.deleteOpen
  {
    st.(selected := Some(id), viewOpen := true)
  }

  /** Closing the modal clears the selection. */
  function CloseForm(st: Dialogs): (r: Dialogs)
    ensures !r.formOpen && !EditMode(r)
    ensures r.deleteOpen == st.deleteOpen && r.viewOpen == st.viewOpen
  {
    st.(formOpen := false, selected := None)
  }

  /** Closing the view (or preview) dialog clears the selection. */
  function CloseView(st: Dialogs): (r: Dialogs)
    ensures !r.viewOpen && !EditMode(r)
    ensures r.formOpen == st.formOpen && r.deleteOpen == st.deleteOpen
  {
    st.(viewOpen := false, selected := None)
  }

  /** Cancelling the confirmation only closes it; the selection stays. */
  function CancelDelete(st: Dialogs): (r: Dialogs)
    ensures !r.deleteOpen && r.selected == st.selected
    ensures r.formOpen == st.formOpen && r.viewOpen == st.viewOpen
  {
    st.(deleteOpen := false)
  }

  /** The request a handler sends, if any, and the dialogs afterwards. */
  datatype Step = Step(request: Option<Endpoints.Op>, next: Dialogs)

  /**
   * `handleCreateUpdate`: an update of the selected record, or a create when
   * nothing is selected. Success closes the modal and clears the selection;
   * failure leaves every dialog and the selection as they were.
   */
  function HandleCreateUpdate(res: Endpoints.Resource, st: Dialogs, outcome: Outcome): (r: Step)
    ensures r.request.Some?
    ensures r.request.value.Update? <==> EditMode(st)
    ensures EditMode(st) ==> r.request.value == Endpoints.Update(res, st.selected.value)
    ensures !EditMode(st) ==> r.request.value == Endpoints.Create(res)
    ensures outcome.Ok? ==>
      !r.next.formOpen && !EditMode(r.next)
      && r.next.deleteOpen == st.deleteOpen && r.next.viewOpen == st.viewOpen
    ensures outcome.Err? ==> r.next == st
  {
    var request := match st.selected
      case Some(id) => Endpoints.Update(res, id)
      case None => Endpoints.Create(res);
    var next := if outcome.Ok? then st.(formOpen := false, selected := None) else st;
    Step(Some(request), next)
  }

  /**
   * `handleDelete`: nothing happens without a selection. Otherwise the
   * selected record is deleted; success closes the confirmation and clears
   * the selection, failure leaves both.
   */
  function HandleDelete(res: Endpoints.Resource, st: Dialogs, outcome: Outcome): (r: Step)
    ensures !EditMode(st) ==> r.request.None? && r.next == st
    ensures EditMode(st) ==> r.request == Some(Endpoints.Remove(res, st.selected.value))
    ensures EditMode(st) && outcome.Ok? ==>
      !r.next.deleteOpen && !EditMode(r.next)
      && r.next.formOpen == st.formOpen && r.next.viewOpen == st.viewOpen
    ensures outcome.Err? ==> r.next == st
  {
    match st.selected
    case None => Step(None, st)
    case Some(id) =>
      Step(Some(Endpoints.Remove(res, id)),
           if outcome.Ok? then st.(deleteOpen := false, selected := None) else st)
  }

  /**
   * Cancelling a delete keeps the record selected, so "Add …" then opens
   * the modal in edit mode and saving updates that record instead of
   * creating one.
   */
  lemma CancelledDeleteThenAddUpdates(
    res: Endpoints.Resource, st: Dialogs, id: string, outcome: Outcome)
    ensures var s := OpenAdd(CancelDelete(OpenDelete(st, id)));
      && EditMode(s)
      && HandleCreateUpdate(res, s, outcome).request == Some(Endpoints.Update(res, id))
  {
  }

  /** After a successful save, "Add …" starts a fresh record. */
  lemma AddAfterSaveCreates(res: Endpoints.Resource, st: Dialogs, o1: Outcome, o2: Outcome)
    requires o1.Ok?
    ensures var s := OpenAdd(HandleCreateUpdate(res, st, o1).next);
      && !EditMode(s)
      && HandleCreateUpdate(res, s, o2).request == Some(Endpoints.Create(res))
  {
  }

  /** A failed save can be retried: the retry sends the same request. */
  lemma FailedSaveRetriesSameRequest(res: Endpoints.Resource, st: Dialogs, o: Outcome, msg: string)
    ensures HandleCreateUpdate(res, HandleCreateUpdate(res, st, Err(msg)).next, o).request
         == HandleCreateUpdate(res, st, o).request
  {
  }

  /** Once a delete has succeeded, confirming again sends nothing. */
  lemma DeleteTwiceSendsOnce(res: Endpoints.Resource, st: Dialogs, o1: Outcome, o2: Outcome)
    requires o1.Ok?
    ensures HandleDelete(res, HandleDelete(res, st, o1).next, o2).request.None?
  {
  }

  /**
   * The requests the handlers send, as HTTP calls: `PUT` and `DELETE` on
   * `/<resource>/<id>` for the selected record, `POST /<resource>` otherwise.
   */
  lemma RoutedRequests(res: Endpoints.Resource, st: Dialogs, id: string, outcome: Outcome)
    requires Endpoints.HasUpdate(res)
    ensures Endpoints.Route(HandleCreateUpdate(res, OpenEdit(st, id), outcome).request.value)
         == Some(Endpoints.Request(Endpoints.Put, "/" + Endpoints.Segment(res) + "/" + id))
    ensures Endpoints.Route(HandleCreateUpdate(res, CloseForm(st), outcome).request.value)
         == Some(Endpoints.Request(Endpoints.Post, "/" + Endpoints.Segment(res)))
    ensures Endpoints.Route(HandleDelete(res, OpenDelete(st, id), outcome).request.value)
         == Some(Endpoints.Request(Endpoints.Delete, "/" + Endpoints.Segment(res) + "/" + id))
  {
    Endpoints.ResourceRoutes(res, id);
  }
}
