# elimisha-admin core, modelled in Dafny

This project models the logic behind the Elimisha admin dashboard. The dashboard is a single-page
React application that manages activities, donations, events and their RSVPs, partners, contact
messages and posters through a REST API. The model is functional: immutable datatypes and pure
functions, with the properties proved as contracts and lemmas. It covers:

- **List utilities.**
  - `Utils`: truncation, the page-number strip and the monthly-metrics merge.
  - `Pagination`: paging arithmetic.
  - `SortHook`: the copy-and-sort hook and its key toggle.
  - `SearchHook`: the case-insensitive search hook.
- **Forms.**
  - The zod schemas are modelled as functions that return the list of validation issues:
    - `PosterForm`, `RsvpForm`, `EventForm`, `DonationForm`, `ActivityForm` and `PartnerForm`;
    - all share the `Validation` module.
  - The default values of each form.
  - The multipart payloads built from form values, in `FormData`:
    - keys are appended in schema order;
    - `String(value)` is used for text;
    - the file is appended only when present.
- **Dashboard.**
  - The guarded metrics merge, and when the chart store is refreshed.
  - The RSVP total.
  - The five next upcoming events and the five latest donations.
- **CSV exports.**
  - `Csv`: the shared writer.
  - `RsvpList` and `ContactsPage`: header lines, rows, and reading the text back.
  - A comparison of the writer with the quoting rule of section 2 of RFC 4180.
- **Page state machines.**
  - `CrudPage`: the dialog lifecycle shared by the record pages.
  - Its instances `ActivitiesPage`, `DonationsPage`, `PartnersPage`, `PostersPage`, `EventsPage` and
    `ContactsPage`.
  - The attendee list (`RsvpList`), the sidebar groups (`Sidebar`) and the notification switches
    (`Settings`).
- **API.**
  - `Endpoints`: the operation → (method, path) table, with its inverse and injectivity.
  - `HttpClient`: the axios base URL, bearer-token rule and error-toast rule.

Supporting modules:

- `Wrappers`: `Option` and the mutation `Outcome`.
- `Text`:
  - string order by character;
  - substring search;
  - ASCII lower case;
  - decimal digits;
  - join and split.
- `StableSort`: an insertion sort standing in for `Array.prototype.sort`.
- `Sequences`: `filter` and subsequences.
- `IsoDate`: shows that string order on `YYYY-MM-DD` dates is calendar order.
- `Records` and `Types`: the API records.

Some behaviours of the code that the model keeps as they are:

- `nextPage` on an empty list gives page 0.
- A poster's `active` default is always true, even when editing an inactive poster.
- Cancelling a delete keeps the selected record, so "Add" on a record page then edits it.
- CSV cells are wrapped in double quotes but never escaped.
- A record whose search field is not a string is dropped, even for the empty query.
- Of the three notification settings only the e-mail one has a rendered switch.

## Model

| member | source | states |
|---|---|---|
| Utils.Truncate | src/lib/utils.ts:24-26 | a string that fits is returned as is; a longer one becomes its first `length` characters (a negative length counts as 0) followed by `...` |
| Utils.TruncateIdempotent | src/lib/utils.ts:24-26 | truncating twice at a length n ≥ 0 changes nothing further, and the result is at most n + 3 long |
| Utils.GeneratePagination | src/lib/utils.ts:28-50 | never more than 7 entries; with at most 7 pages, exactly the pages 1..totalPages in order |
| Utils.PaginationShortRange | src/lib/utils.ts:29-31 | with at most 7 pages every page appears and there is no gap; no pages gives the empty strip |
| Utils.PaginationWellFormed | src/lib/utils.ts:33-49 | for more than 7 pages and an in-range current page, the strip starts at 1, ends at the last page, lists existing pages in strictly increasing order, includes the current page and never has two gaps side by side |
| Utils.PaginationMiddleWindow | src/lib/utils.ts:41-49 | away from both ends the strip is 1, gap, the current page between its neighbours, gap, last page |
| Utils.MonthName | src/lib/utils.ts:56-62 | the first 12 months get their three-letter names, later ones `Month n` with n the 1-based index |
| Utils.MonthNamesDistinct | src/lib/utils.ts:56-62 | distinct month indices get distinct labels |
| Utils.CombineMetricsData | src/lib/utils.ts:52-65 | one point per donation month, labelled by month, with that month's donations, and the same month's activity count or 0 when the activity series is shorter |
| Utils.CombineMetricsLabelsDistinct | src/lib/utils.ts:52-65 | the chart labels of a merge are pairwise distinct |
| Pagination.Init | src/lib/hooks/use-pagination.ts:9 | paging starts on page 1 |
| Pagination.TotalPages | src/lib/hooks/use-pagination.ts:10 | the page count is the least number of pages that holds all items: 0 exactly when there are no items |
| Pagination.NextPage | src/lib/hooks/use-pagination.ts:12-14 | the next page is one further, capped at the page count |
| Pagination.PrevPage | src/lib/hooks/use-pagination.ts:16-18 | the previous page is one back, never below 1 |
| Pagination.EmptyListNextIsPageZero | src/lib/hooks/use-pagination.ts:10-14 | with no items, "next" moves from page 1 to page 0 |
| Pagination.SetCurrentPage | src/lib/hooks/use-pagination.ts:9 | the page can be set to any number, unclamped |
| Pagination.StartIndex | src/lib/hooks/use-pagination.ts:20 | the first index of the current page is 0 on page 1, never negative, and inside the item list on every existing page |
| Pagination.EndIndex | src/lib/hooks/use-pagination.ts:21 | the end index lies one page past the start, and on an existing page reaches the end of the items exactly on the last page |
| Pagination.SliceInRange | src/lib/hooks/use-pagination.ts:20-21 | on an existing page, the slice starts inside the item list and spans one page of items |
| Pagination.Navigate | src/lib/hooks/use-pagination.ts:12-18 | any sequence of next/previous presses keeps the paging properties |
| Pagination.NavigationStaysInRange | src/lib/hooks/use-pagination.ts:12-18 | starting on an existing page, next/previous presses never leave the range 1..pages |
| SortHook.Init | src/lib/hooks/use-sort.ts:10-11 | the hook starts with the given key and direction, ascending by default |
| SortHook.Compare | src/lib/hooks/use-sort.ts:13-28 | strings tie exactly when equal and sort first by string order (reversed for descending); numbers tie exactly when equal and sort first when smaller (larger for descending); any other pair ties |
| SortHook.Comparator | src/lib/hooks/use-sort.ts:13-28 | swapping the comparator's arguments negates its result |
| SortHook.DescIsSwappedAsc | src/lib/hooks/use-sort.ts:17-25 | the descending comparison is the ascending one with its arguments swapped |
| SortHook.MixedPairsTie | src/lib/hooks/use-sort.ts:27 | values that are not both strings or both numbers compare equal |
| SortHook.SortedItems | src/lib/hooks/use-sort.ts:13 | the sorted list is a permutation of the items |
| SortHook.ComparatorIsPreorder | src/lib/hooks/use-sort.ts:13-28 | on all-string or all-number keys the comparator is a total preorder |
| SortHook.SortedStringKeys | src/lib/hooks/use-sort.ts:17-20 | string keys come out in string order, reversed for descending |
| SortHook.SortedNumberKeys | src/lib/hooks/use-sort.ts:23-25 | number keys come out non-decreasing, or non-increasing for descending |
| SortHook.UnorderableKeysKeepOrder | src/lib/hooks/use-sort.ts:27 | when no key is a string or a number, the sort keeps the input order |
| SortHook.ToggleSort | src/lib/hooks/use-sort.ts:30-37 | the clicked key becomes the sort key; the same key flips the direction, a new key starts ascending |
| SortHook.ToggleSameKeyTwice | src/lib/hooks/use-sort.ts:30-37 | clicking the current key twice restores the state |
| SearchHook.Init | src/lib/hooks/use-search.ts:5-6 | the live and debounced queries start empty |
| SearchHook.SetQuery | src/lib/hooks/use-search.ts:5-6 | typing changes the live query only |
| SearchHook.Settle | src/lib/hooks/use-search.ts:6 | when the debounce settles, the debounced query catches up with the live one |
| SearchHook.FilteredItems | src/lib/hooks/use-search.ts:8-14 | an item is kept exactly when its field is a string whose lower case contains the lower-cased debounced query, and a kept item appears as many times as in the input |
| SearchHook.FilteredIsSubsequence | src/lib/hooks/use-search.ts:8 | the result keeps the items' order |
| SearchHook.NonStringNeverKept | src/lib/hooks/use-search.ts:13 | an item whose field is not a string is never kept, whatever the query |
| SearchHook.EmptyQueryKeepsStrings | src/lib/hooks/use-search.ts:11 | with an empty query all string-valued items are kept |
| SearchHook.TypingDoesNotRefilter | src/lib/hooks/use-search.ts:6-11 | the result depends on the debounced query, not on the live one |
| SearchHook.LongerQueryNarrows | src/lib/hooks/use-search.ts:11 | extending the query gives a subsequence of the previous result |
| FormData.Stringify | src/pages/posters/components/poster-form.tsx:46 | `String(v)` is the string itself for strings and `true`/`false` for booleans |
| FormData.ToPart | src/pages/posters/components/poster-form.tsx:46-50 | a file is stored as a blob part, anything else as the text of `String(v)` |
| FormData.ValueOf | src/pages/posters/components/poster-form.tsx:44 | a defined value read from the form values comes from the field with that key |
| FormData.FieldEntries | src/pages/posters/components/poster-form.tsx:44-48 | the text entries never carry the image key and are at most one per field |
| FormData.FieldEntriesCount | src/pages/posters/components/poster-form.tsx:44-48 | with distinct keys each defined non-image field is appended exactly once, other keys never |
| FormData.PayloadKeyCount | src/pages/posters/components/poster-form.tsx:44-51 | each defined non-image field occurs once in the payload, and the image key once exactly when the image is truthy |
| FormData.FieldEntriesInOrder | src/pages/posters/components/poster-form.tsx:44 | entries follow the order of the form values |
| FormData.PayloadKeysFromFields | src/pages/posters/components/poster-form.tsx:44-51 | every payload key is the image key or a field key |
| Validation.Rule | src/pages/posters/components/poster-form.tsx:14-25 | a zod check yields no issue when it holds and one issue at its path with its message otherwise |
| Validation.Required | src/pages/donations/components/donation-form.tsx:11-14 | `min(1)` on a string fails exactly on the empty string, with the field's message |
| Validation.HasIssueAtConcat | src/pages/posters/components/poster-form.tsx:14-25 | the issues of an object are found at a path exactly when one of its parts reports that path |
| Validation.HasIssueAtRule | src/pages/posters/components/poster-form.tsx:14-25 | a single check reports a path exactly when it fails and that is its path |
| Validation.CatchAndLog | src/pages/events/components/rsvp-form.tsx:37-43 | the submit handler never rejects, and logs exactly the failures with their message |
| IsoDate.SegmentCompare | src/pages/posters/components/poster-form.tsx:17 | on equal-length digit strings, string order is numeric order |
| IsoDate.AssembledCompare | src/pages/posters/components/poster-form.tsx:17-22 | comparing `Y-M-D` strings with equal-width parts compares year, then month, then day |
| IsoDate.IsoOrderIsCalendarOrder | src/pages/posters/components/poster-form.tsx:12-22 | for `YYYY-MM-DD` strings, string order is calendar order and string equality is the same day |
| IsoDate.IsoGeIsNotBefore | src/pages/posters/components/poster-form.tsx:17-22 | `a >= b` on ISO dates means a is not calendar-before b |
| Text.LexCompare | src/pages/posters/components/poster-form.tsx:17-22 | the three-way string comparison lies in -1..1 and is 0 exactly on equal strings |
| Text.LexGe | src/pages/posters/components/poster-form.tsx:17-22 | `a >= b` holds exactly when `b > a` does not, and always on equal strings |
| Text.LexGt | src/pages/posters/components/poster-form.tsx:39 | `a > b` is `a >= b` on different strings, and excludes `b >= a` |
| Text.LexCompareAntisymmetric | src/lib/hooks/use-sort.ts:17-20 | swapping the strings negates the comparison |
| Text.LexCompareTransitive | src/lib/hooks/use-sort.ts:17-20 | sorting no later than is transitive |
| PosterForm.Validate | src/pages/posters/components/poster-form.tsx:14-25 | a poster passes exactly when the title is set, both dates are set and not before today, and the end is not before the start; a title issue exactly when it is empty; a start after the end is reported at `endDate` with its message |
| PosterForm.SameDayAccepted | src/pages/posters/components/poster-form.tsx:22-25 | a poster that starts and ends on the same valid day passes |
| PosterForm.EmptyStartDateReportedTwice | src/pages/posters/components/poster-form.tsx:16-17 | an empty start date is reported both as missing and as in the past |
| PosterForm.Defaults | src/pages/posters/components/poster-form.tsx:30-35 | an edited poster's title and dates are loaded, a new one's are empty, and `active` is true |
| PosterForm.InactivePosterDefaultsToActive | src/pages/posters/components/poster-form.tsx:34 | editing an inactive poster shows it as active |
| PosterForm.FieldsFacts | src/pages/posters/components/poster-form.tsx:44-48 | the text entries are title, startDate, endDate and active, in that order, as strings |
| PosterForm.HandleSubmit | src/pages/posters/components/poster-form.tsx:38-53 | a start after the end aborts; otherwise title, startDate, endDate and `"true"`/`"false"` are sent, then the image exactly when truthy |
| PosterForm.ValidValuesAreSent | src/pages/posters/components/poster-form.tsx:22-42 | values that pass the schema are never aborted by the submit handler |
| PosterForm.PayloadKeysOnce | src/pages/posters/components/poster-form.tsx:44-51 | each text key occurs once and the image key once exactly when the image is truthy |
| RsvpForm.PhoneShape | src/pages/events/components/rsvp-form.tsx:14-15 | a phone is valid exactly when it is `254` and nine digits, twelve characters in all |
| RsvpForm.OtherFormatsRejected | src/pages/events/components/rsvp-form.tsx:14-15 | every number starting with `0` or `+` is refused, and so is a valid number with anything appended |
| RsvpForm.Validate | src/pages/events/components/rsvp-form.tsx:11-16 | an RSVP passes exactly when the name is set, the email is valid and both phones are valid; each field is reported exactly when its own rule fails, both phones with the same message |
| RsvpForm.Defaults | src/pages/events/components/rsvp-form.tsx:29-34 | an edited RSVP's fields are loaded; a new one is all empty |
| RsvpForm.UntouchedFormFails | src/pages/events/components/rsvp-form.tsx:12-15 | a new, untouched form is refused on the name and both phones |
| EventForm.Validate | src/pages/events/components/event-form.tsx:13-22 | an event passes exactly when the four texts are set, seats ≥ 1, fee ≥ 0 and the link is valid; the seat and fee messages accompany their failures, and an empty title is the first issue |
| EventForm.RequiredTextMessages | src/pages/events/components/event-form.tsx:15-17 | each empty text field is reported with its own message |
| EventForm.Defaults | src/pages/events/components/event-form.tsx:34-42 | an edited event's fields are loaded, the date as its ISO day and 0 seats replaced by 1; a new event is empty with 1 seat and fee 0; seats are never 0 |
| EventForm.SoldOutEventDefaultsToOneSeat | src/pages/events/components/event-form.tsx:39 | an event with 0 seats opens with 1 seat |
| EventForm.StoredEventRevalidates | src/pages/events/components/event-form.tsx:13-42 | a stored valid event, loaded into the form, passes the schema |
| EventForm.NewEventNeedsTexts | src/pages/events/components/event-form.tsx:14-41 | an untouched new event is refused, first on its title |
| DonationForm.Validate | src/pages/donations/components/donation-form.tsx:10-16 | a donation passes exactly when its four texts are set, each reported exactly when empty |
| DonationForm.Defaults | src/pages/donations/components/donation-form.tsx:29-34 | an edited donation's fields, date included, are loaded as stored; a new one is empty |
| DonationForm.FieldsFacts | src/pages/donations/components/donation-form.tsx:40-44 | the text entries are title, date, location and description, in that order |
| DonationForm.Payload | src/pages/donations/components/donation-form.tsx:37-49 | four text entries in schema order, then the image exactly when truthy |
| DonationForm.PayloadKeysOnce | src/pages/donations/components/donation-form.tsx:40-47 | each text key once, the image key once exactly when truthy, no other key |
| ActivityForm.Validate | src/pages/activities/components/activity-form.tsx:9-14 | an activity passes exactly when title, date and description are set, each reported exactly when empty |
| ActivityForm.Defaults | src/pages/activities/components/activity-form.tsx:26-30 | an edited activity's fields are loaded; a new one is empty |
| ActivityForm.FieldsFacts | src/pages/activities/components/activity-form.tsx:35-39 | the text entries are title, date and description, in that order |
| ActivityForm.Payload | src/pages/activities/components/activity-form.tsx:33-44 | three text entries in schema order, then the image exactly when truthy |
| ActivityForm.PayloadKeysOnce | src/pages/activities/components/activity-form.tsx:35-42 | each text key once, the image key once exactly when truthy, no key outside title, date, description and image |
| PartnerForm.Validate | src/pages/partners/components/partner-form.tsx:9-12 | a partner passes exactly when the name is set |
| PartnerForm.Defaults | src/pages/partners/components/partner-form.tsx:18 | an edited partner's name is loaded; a new one is empty |
| PartnerForm.Payload | src/pages/partners/components/partner-form.tsx:22-29 | the name always comes first, then the logo exactly when truthy: one or two entries |
| PartnerForm.PayloadKeysOnce | src/pages/partners/components/partner-form.tsx:24-27 | the name once, the logo once exactly when truthy, nothing else |
| Dashboard.CombineGuarded | src/pages/dashboard/page.tsx:28-46 | no chart points when either series is missing; otherwise one point per donation month with its donations |
| Dashboard.CombineGuardedAgrees | src/pages/dashboard/page.tsx:32-45 | with both series present the page's merge equals the shared helper |
| Dashboard.RefreshChart | src/pages/dashboard/page.tsx:62-67 | the stored chart changes only once both metrics have loaded and exist, and then to the merge |
| Dashboard.RefreshSettles | src/pages/dashboard/page.tsx:62-67 | running the effect again changes nothing, and once both metrics have loaded the chart does not depend on what was stored |
| Dashboard.MissingSeriesClearsChart | src/pages/dashboard/page.tsx:32-34 | a loaded response without a series replaces the chart with nothing |
| Dashboard.TotalRsvps | src/pages/dashboard/page.tsx:69 | with every count missing the total is 0; non-negative counts give a non-negative total; a single event contributes exactly its count, a missing count taken as 0 |
| Dashboard.TotalRsvpsIsReduce | src/pages/dashboard/page.tsx:69 | the total equals the left-to-right `reduce` from 0 that adds each event's count (0 when missing), and from any start value it adds exactly the total |
| Dashboard.TotalRsvpsConcat | src/pages/dashboard/page.tsx:69 | the total of two event lists is the sum of their totals |
| Dashboard.TotalRsvpsBoundsEach | src/pages/dashboard/page.tsx:69 | with non-negative counts no single event exceeds the total |
| Dashboard.UpcomingSorted | src/pages/dashboard/page.tsx:70-72 | the future events, rearranged in ascending date order |
| Dashboard.UpcomingEvents | src/pages/dashboard/page.tsx:70-73 | at most five events taken from the date-sorted upcoming ones without repeating any (a sub-multiset of them), in ascending date order; with UpcomingCount and UpcomingAreEarliest, the first five of the sorted upcoming events |
| Dashboard.UpcomingShrinksOverTime | src/pages/dashboard/page.tsx:70-71 | at a later time the upcoming events are a subsequence of those upcoming earlier |
| Dashboard.UpcomingAreEarliest | src/pages/dashboard/page.tsx:70-73 | a future event left out is preceded by five that are no later |
| Dashboard.UpcomingCount | src/pages/dashboard/page.tsx:73 | five events are shown, or all future ones when there are fewer |
| Dashboard.UpcomingStat | src/pages/dashboard/page.tsx:70-97 | the "Upcoming Events" card never shows fewer events than the upcoming list holds, whatever the clock |
| Dashboard.StatCountsPastEvents | src/pages/dashboard/page.tsx:70-97 | with only past events the list is empty but the card still counts them all |
| Dashboard.RecentDonations | src/pages/dashboard/page.tsx:75-77 | the donations are reordered newest first, a permutation, and the first five (or all) are shown |
| Dashboard.RecentAreLatest | src/pages/dashboard/page.tsx:75-77 | a donation not shown is no newer than every shown one |
| Csv.Quote | src/pages/events/components/rsvp-list.tsx:75 | a cell is wrapped in double quotes with its contents copied unchanged |
| Csv.Rows | src/pages/events/components/rsvp-list.tsx:65-71 | one row per record, in list order, each holding that record's cells |
| Csv.Row | src/pages/events/components/rsvp-list.tsx:75 | no cells give an empty line; otherwise the line opens and closes with a double quote, and a single cell is just that cell quoted (RowRoundTrip states that every cell is quoted) |
| Csv.Document | src/pages/events/components/rsvp-list.tsx:73-76 | the text always opens with the header line, and with no rows it is the header line alone |
| Csv.QuoteFree | src/pages/events/components/rsvp-list.tsx:75 | quoting adds no character other than the double quote |
| Csv.RowFree | src/pages/events/components/rsvp-list.tsx:75 | a data line holds a line feed only if one of its cells does |
| Csv.RowRoundTrip | src/pages/events/components/rsvp-list.tsx:75 | when no cell holds a comma, the line splits at its commas into every cell wrapped in double quotes, in order, and reads back as exactly those cells |
| Csv.DocumentLines | src/pages/events/components/rsvp-list.tsx:73-76 | without line feeds in the cells, the text is the header line and one line per row, no trailing newline |
| Csv.DocumentReadBack | src/pages/events/components/rsvp-list.tsx:73-76 | without line feeds or commas in the cells, each data line reads back as its row |
| Csv.EscapeQuotes | src/pages/events/components/rsvp-list.tsx:75 | the RFC 4180 doubling of quotes changes a cell exactly when it holds a double quote |
| Csv.QuoteMatchesRfc | src/pages/events/components/rsvp-list.tsx:75 | the export's quoting agrees with RFC 4180 exactly on cells without a double quote |
| RsvpList.Rsvps | src/pages/events/components/rsvp-list.tsx:26 | missing RSVPs are shown as none |
| RsvpList.OpenAdd | src/pages/events/components/rsvp-list.tsx:157 | "Add Attendee" shows the form and changes nothing else |
| RsvpList.OpenEdit | src/pages/events/components/rsvp-list.tsx:120-123 | editing a row loads it into the form and leaves the delete selection alone |
| RsvpList.OpenDelete | src/pages/events/components/rsvp-list.tsx:131-134 | deleting a row selects it and opens the confirmation, leaving the form alone |
| RsvpList.CancelForm | src/pages/events/components/rsvp-list.tsx:168-171 | cancelling the form hides it and forgets the attendee being edited |
| RsvpList.CancelDelete | src/pages/events/components/rsvp-list.tsx:183 | dismissing the confirmation keeps the selected attendee |
| RsvpList.HandleSubmit | src/pages/events/components/rsvp-list.tsx:28-47 | updates the attendee being edited or registers a new one; success hides the form and clears the edit target; failure changes nothing |
| RsvpList.HandleDelete | src/pages/events/components/rsvp-list.tsx:49-61 | nothing without a selection; otherwise deletes it, and success closes the dialog and clears the selection |
| RsvpList.CancelledDeleteStillAdds | src/pages/events/components/rsvp-list.tsx:28-41 | after a cancelled delete "Add Attendee" still creates, with `POST /events/<e>/rsvp`; an edit sends `PUT /events/<e>/rsvp/<id>` |
| RsvpList.DeleteRoute | src/pages/events/components/rsvp-list.tsx:49-61 | a delete sends `DELETE /events/<e>/rsvp/<id>`, and a second confirmation after success sends nothing |
| RsvpList.Cells | src/pages/events/components/rsvp-list.tsx:65-71 | a row holds name, email, both phones and the formatted registration date, in header order |
| RsvpList.Export | src/pages/events/components/rsvp-list.tsx:63-76 | the exported text opens with the header line, and while the attendees are missing it is the header line alone |
| RsvpList.FileName | src/pages/events/components/rsvp-list.tsx:82 | the file name begins with the event title, or `undefined` when the event is not loaded, and ends in `.csv` |
| RsvpList.HeaderLine | src/pages/events/components/rsvp-list.tsx:64-74 | the header line is `Full Name,Email,M-Pesa Phone,WhatsApp,Registration Date` |
| RsvpList.ExportReadsBack | src/pages/events/components/rsvp-list.tsx:63-76 | the export has the header line and one line per attendee, each reading back as its cells when no field holds a comma or line feed |
| ContactsPage.DeleteFlow | src/pages/contacts/page.tsx:17-26 | deleting a picked message sends `DELETE /contacts/<id>`, success closes and clears, dismissing keeps the pick |
| ContactsPage.Cells | src/pages/contacts/page.tsx:30-35 | a row holds name, email, message and the formatted creation date, in header order |
| ContactsPage.Export | src/pages/contacts/page.tsx:28-51 | a CSV export produces text that opens with the header line, the header alone for no messages; the Excel choice produces nothing |
| ContactsPage.HeaderLine | src/pages/contacts/page.tsx:29-39 | the header line is `Full Name,Email,Message,Date` |
| ContactsPage.ExportReadsBack | src/pages/contacts/page.tsx:28-41 | the CSV has the header line and one line per message in list order, each reading back as its cells |
| CrudPage.ModalTitle | src/pages/donations/page.tsx:164 | the modal reads "Edit …" exactly while a record is selected, "Add …" otherwise |
| CrudPage.OpenAdd | src/pages/donations/page.tsx:131 | "Add" opens the modal and keeps whatever is selected |
| CrudPage.OpenEdit | src/pages/donations/page.tsx:152-155 | editing a record selects it and opens the modal |
| CrudPage.OpenDelete | src/pages/donations/page.tsx:156-159 | deleting a record selects it and opens the confirmation |
| CrudPage.OpenView | src/pages/donations/page.tsx:148-151 | viewing a record selects it and opens the view dialog |
| CrudPage.CloseForm | src/pages/donations/page.tsx:166-169 | closing the modal clears the selection |
| CrudPage.CloseView | src/pages/donations/page.tsx:180-183 | closing the view dialog clears the selection |
| CrudPage.CancelDelete | src/pages/donations/page.tsx:188 | dismissing the confirmation closes it and keeps the selection |
| CrudPage.HandleCreateUpdate | src/pages/donations/page.tsx:95-107 | updates exactly when a record is selected, else creates; success closes the modal and clears the selection; failure changes nothing |
| CrudPage.HandleDelete | src/pages/donations/page.tsx:109-118 | nothing without a selection; otherwise deletes it; success closes the dialog and clears; failure changes nothing |
| CrudPage.CancelledDeleteThenAddUpdates | src/pages/donations/page.tsx:131-188 | after a cancelled delete, "Add" opens in edit mode and saving updates the old record |
| CrudPage.AddAfterSaveCreates | src/pages/donations/page.tsx:95-107 | after a successful save, "Add" creates a new record |
| CrudPage.FailedSaveRetriesSameRequest | src/pages/donations/page.tsx:95-107 | after a failed save, saving again sends the same request |
| CrudPage.DeleteTwiceSendsOnce | src/pages/donations/page.tsx:109-118 | once a delete succeeds, confirming again sends nothing |
| CrudPage.RoutedRequests | src/pages/donations/page.tsx:95-118 | saves and deletes become `PUT`/`DELETE /<resource>/<id>` and `POST /<resource>` |
| ActivitiesPage.Lifecycle | src/pages/activities/page.tsx:21-119 | activity requests go to `/activities`; closing the modal or view clears the selection; a cancelled delete leaves "Add Activity" titled "Edit Activity" |
| DonationsPage.Lifecycle | src/pages/donations/page.tsx:95-188 | donation requests go to `/donations`; closing the modal or view clears the selection; a cancelled delete leaves "Add Donation" titled "Edit Donation" |
| PartnersPage.Lifecycle | src/pages/partners/page.tsx:19-102 | partner requests go to `/partners`; closing the modal clears the selection; a cancelled delete leaves "Add Partner" titled "Edit Partner" |
| PostersPage.Lifecycle | src/pages/posters/page.tsx:21-134 | poster requests go to `/posters`; closing the modal or preview clears the selection; a cancelled delete leaves "Add Poster" titled "Edit Poster" |
| PostersPage.HandleToggle | src/pages/posters/page.tsx:35-41 | the switch sends the poster's toggle request and changes no page state, on success or failure |
| PostersPage.ToggleKeepsEditing | src/pages/posters/page.tsx:35-41 | the toggle is `PATCH /posters/<id>/toggle` and leaves an open edit untouched |
| EventsPage.Lifecycle | src/pages/events/page.tsx:23-121 | event requests go to `/events`; closing the modal clears the selection; a cancelled delete leaves "Add Event" titled "Edit Event" |
| EventsPage.ToggleRsvps | src/pages/events/page.tsx:48-55 | a non-empty id fetches its RSVPs; the expanded event becomes that id, or none when it was already expanded |
| EventsPage.ListFollowsToggle | src/pages/events/page.tsx:48-99 | after a press the RSVP list is shown exactly when the pressed event has a non-empty id and was not already expanded; nothing is shown with no event expanded |
| EventsPage.ToggleRsvpsTwice | src/pages/events/page.tsx:48-99 | two presses open then close the list and fetch both times; pressing another event moves the list |
| Sidebar.ToggleGroup | src/components/layout/sidebar.tsx:43-49 | the clicked group's membership flips: an absent name is appended at the end, a present one removed in order |
| Sidebar.FilterIsWithout | src/components/layout/sidebar.tsx:46 | the filter removes every occurrence of the name and keeps every other |
| Sidebar.OthersUnchanged | src/components/layout/sidebar.tsx:44-48 | every other group stays open or closed |
| Sidebar.ToggleClosedTwice | src/components/layout/sidebar.tsx:44-48 | opening and then closing a closed group restores the list |
| Sidebar.ToggleKeepsDistinct | src/components/layout/sidebar.tsx:44-48 | a list without repeated names keeps none |
| Sidebar.OnGroupClick | src/components/layout/sidebar.tsx:119 | a header click toggles only while the sidebar is open |
| Settings.Initial | src/pages/settings/page.tsx:16-20 | email notifications and the digest start on, marketing mail off |
| Settings.UpdateSetting | src/pages/settings/page.tsx:22-28 | a switch negates its own setting and leaves the others unchanged |
| Settings.Clicks | src/pages/settings/page.tsx:22-28 | a setting whose switch is never clicked keeps its value |
| Settings.HiddenSettingsKeepDefaults | src/pages/settings/page.tsx:16-96 | with only the e-mail switch rendered, marketing mail stays off and the digest stays on whatever is clicked |
| Settings.UpdateTwice | src/pages/settings/page.tsx:24 | flipping a switch twice restores the settings |
| Settings.UpdatesCommute | src/pages/settings/page.tsx:24 | flips of two switches can be done in either order |
| Endpoints.ResourceOf | src/lib/api/endpoints.ts:4-54 | a path segment is read as the resource that owns it |
| Endpoints.ResourceOfSegment | src/lib/api/endpoints.ts:4-54 | every resource is read back from its own segment |
| Endpoints.Route | src/lib/api/endpoints.ts:4-54 | contacts have no update, only activities and donations have metrics, everything else has a route, and every path begins with `/` |
| Endpoints.ResourceRoutes | src/lib/api/endpoints.ts:4-24 | list and create use `/<resource>`, metrics `/<resource>/metrics`, update and delete `/<resource>/<id>` with the id verbatim |
| Endpoints.RsvpRoutes | src/lib/api/endpoints.ts:25-27 | RSVP list and create use `GET`/`POST /events/<e>/rsvp` |
| Endpoints.RsvpItemRoutes | src/lib/api/endpoints.ts:28-31 | RSVP update and delete use `PUT`/`DELETE /events/<e>/rsvp/<r>` |
| Endpoints.ToggleRoute | src/lib/api/endpoints.ts:52 | the poster toggle is `PATCH /posters/<id>/toggle` |
| Endpoints.ParseShape | src/lib/api/endpoints.ts:4-54 | the method and segments of every operation read back as that operation |
| Endpoints.RouteParse | src/lib/api/endpoints.ts:4-54 | with ids free of `/`, every routed request reads back as its operation |
| Endpoints.RouteInjective | src/lib/api/endpoints.ts:4-54 | with ids free of `/`, distinct operations give distinct requests |
| Endpoints.SlashInIdCollides | src/lib/api/endpoints.ts:24-31 | an event id containing `/rsvp/` makes an event delete indistinguishable from an RSVP delete |
| HttpClient.BaseUrl | src/lib/api/axios.ts:15 | a non-empty environment URL is used, otherwise `http://localhost:8787/api` |
| HttpClient.AttachToken | src/lib/api/axios.ts:21-27 | a truthy token sets `Authorization: Bearer <token>` and keeps the other headers; otherwise the config is unchanged |
| HttpClient.InterceptResponse | src/lib/api/axios.ts:29-36 | responses pass through; every error is rejected again and toasted with the server's message, or "An error occurred" |

## Left out

- Utils.Truncate: lengths count characters (Unicode scalar values), not the UTF-16 code units of JavaScript's `length` and `substring`. A character outside the Basic Multilingual Plane counts once here and twice in the source, so such strings can be truncated at a different point or not at all.
- Text.LexCompare: strings compare by Unicode scalar value, not by UTF-16 code unit as JavaScript's `<` and `>=` do. The orders differ only when a character outside the Basic Multilingual Plane is compared with one from U+E000 to U+FFFF.
- Pagination.TotalPages: requires `itemsPerPage > 0`. The source divides by it and would give an infinite page count for 0.
- SortHook.SortedStringKeys: `localeCompare` is modelled as plain character order, because locale collation is not modelled.
- SortHook.UnorderableKeysKeepOrder: stability is proved only for lists where no key can be ordered. That tied items keep their relative order is not proved for other lists, whether all-string, all-number or mixed.
- SearchHook.FilteredItems: lower-casing is ASCII only. Unicode case mapping is not modelled.
- RsvpForm.Validate: the email check enters as a boolean verdict (`emailOk`). zod's email grammar is not modelled.
- EventForm.Validate: the optional URL check enters as a boolean verdict (`urlOk`). zod's URL grammar is not modelled.
- EventForm.Defaults: the date's `toISOString` day is a parameter (`isoDay`). Date parsing is not modelled.
- Dashboard.UpcomingEvents: `new Date(...)` enters as a parameter `timeOf` from date strings to instants, and the current time as `now`. Invalid dates are not modelled: `timeOf` gives an instant for every string, whereas `new Date` of an unparsable string is NaN, which is never later than now and makes the sort comparator report a tie.
- RsvpList.Cells: the `format(new Date(...))` date cell is a parameter (`formatDate`).
- ContactsPage.Cells: the `format(new Date(...))` date cell is a parameter (`formatDate`).
- HttpClient.AttachToken: the asynchronous fetch of the session token is replaced by the token as a parameter.
- Numbers are unbounded integers. Floating-point values of seats, fees, counts and time differences are not modelled.
- Side effects are left out:
  - the `useDebounce` timer (`Settle` stands for the moment it fires);
  - toasts and console logging (the toast text is modelled as a result);
  - Blob creation and download;
  - `mailto:` navigation.
- Query caching, request de-duplication and invalidation belong to the data-fetching library and are not modelled. The API hooks are not part of this model.
- Promise plumbing is reduced to an `Ok`/`Err` outcome passed to each handler.
- The view dialogs' contents, tables, cards, charts, theming, authentication and routing are rendering only.
