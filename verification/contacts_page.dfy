/**
 * The contact-messages page (src/pages/contacts/page.tsx): delete with a
 * confirmation dialog, and the CSV export of every message.
 */
module ContactsPage {
  import opened Wrappers
  import opened CrudPage
  import opened Types
  import Endpoints
  import Text
  import Csv

  /**
   * Deleting the message picked from the table sends `DELETE /contacts/<id>`;
   * success closes the dialog and forgets the message, and dismissing the
   * dialog keeps it selected.
   */
  lemma DeleteFlow(st: Dialogs, id: string, outcome: Outcome)
    ensures Endpoints.Route(HandleDelete(Endpoints.Contacts, OpenDelete(st, id), outcome).request.value)
         == Some(Endpoints.Request(Endpoints.Delete, "/contacts/" + id))
    ensures outcome.Ok? ==>
      var s := HandleDelete(Endpoints.Contacts, OpenDelete(st, id), outcome).next;
      !s.deleteOpen && s.selected == None
    ensures CancelDelete(OpenDelete(st, id)).selected == Some(id)
  {
    Endpoints.ResourceRoutes(Endpoints.Contacts, id);
    assert "/" + "contacts" + "/" + id == "/contacts/" + id;
  }

  /** The export menu's two choices. */
  datatype ExportType = Csv | Excel

  const Headers: seq<string> := ["Full Name", "Email", "Message", "Date"]

  /**
   * The cells of one message; `formatDate` stands for the `yyyy-MM-dd HH:mm:ss`
   * rendering of the creation time.
   */
  function Cells(c: Contact, formatDate: string -> string): (cells: seq<string>)
    ensures |cells| == |Headers|
    ensures cells[0] == c.fullName && cells[1] == c.email && cells[2] == c.message
    ensures cells[3] == formatDate(c.createdAt)
  {
    [c.fullName, c.email, c.message, formatDate(c.createdAt)]
  }

  /** The header line is the four column names joined by commas, one line. */
  lemma HeaderLine()
    ensures Text.Join(Headers, ',') == "Full Name,Email,Message,Date"
    ensures Text.SeparatorFree(Headers, '\n')
  {
    Text.JoinFour("Full Name", "Email", "Message", "Date", ',');
  }

  /**
   * The exported text: the CSV document for `Csv`; nothing for `Excel`, which
   * the page leaves unimplemented.
   */
  function Export(kind: ExportType, contacts: seq<Contact>, formatDate: string -> string): (doc: Option<string>)
    ensures doc.Some? <==> kind == Csv
    ensures doc.Some? ==> |doc.value| >= 28 && doc.value[..28] == "Full Name,Email,Message,Date"
    ensures doc.Some? && contacts == [] ==> doc.value == "Full Name,Email,Message,Date"
  {
    HeaderLine();
    match kind
    case Csv => Some(Csv.Document(Headers, Csv.Rows(contacts, x => Cells(x, formatDate))))
    case Excel => None
  }

  /** No field of any message, nor its formatted date, contains `c`. */
  predicate FieldsFree(contacts: seq<Contact>, formatDate: string -> string, c: char) {
    forall i :: 0 <= i < |contacts| ==> Text.SeparatorFree(Cells(contacts[i], formatDate), c)
  }

  /**
   * A CSV export starts with the fixed header line and, when no field holds
   * a line feed or a comma, has one more line per message that reads back as
   * that message's name, email, text and date.
   */
  lemma ExportReadsBack(contacts: seq<Contact>, formatDate: string -> string)
    requires FieldsFree(contacts, formatDate, '\n') && FieldsFree(contacts, formatDate, ',')
    ensures var lines := Text.Split(Export(Csv, contacts, formatDate).value, '\n');
      && |lines| == |contacts| + 1
      && lines[0] == "Full Name,Email,Message,Date"
      && forall i :: 0 <= i < |contacts| ==>
           Csv.ParseRow(lines[i + 1]) == Cells(contacts[i], formatDate)
  {
    var rows := Csv.Rows(contacts, x => Cells(x, formatDate));
    HeaderLine();
    assert Csv.CellsFree(rows, '\n') && Csv.CellsFree(rows, ',');
    Csv.DocumentLines(Headers, rows);
    Csv.DocumentReadBack(Headers, rows);
  }
}
