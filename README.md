# IT ticketing workflow, modelled in Dafny

This project models the ticket workflow of the IT ticketing system's single
React component, `App` in `src/App.jsx`. Workers submit tickets. IT staff move
them through a small status lifecycle. Either role adds comments. The whole
collection lives in one `localStorage` entry.

The model has five modules:

- `Text` (`text.dfy`): the JavaScript string operations the component relies
  on, over `seq<char>`. These are `trim` (ECMAScript whitespace),
  `toLowerCase` and `includes`.
- `Tickets` (`tickets.dfy`): the records. These are users with the roles
  `worker` and `it`, tickets, comments and the new-ticket form. Timestamps are
  integers.
- `Visibility` (`visibility.dfy`): the `applyFilters` pipeline.
  - It runs the role scope, the text search, the status and priority
    drop-downs, and then a stable newest-first sort.
  - The sort is modelled as a stable insertion sort. It is proved to be the
    only stable newest-first ordering, so any stable sort gives the same list.
- `Lifecycle` (`lifecycle.dfy`): the pure collection updates inside the
  handlers, on the collection as a value.
  - The new ticket of `createTicket`, with its `TKT-` id taken from the
    millisecond clock.
  - The `map` of `updateTicketStatus` and of `addComment`.
  - The `find` that re-reads the selected ticket.
  - The status buttons the detail panel offers.
- `App` (`app.dfy`): class `TicketApp` holds the component's state as fields.
  - Each handler is a method that changes those fields.
  - `localStorage` is the field `storage`.
  - The `applyFilters` effect is the method `ApplyFilters`. React runs it
    after a handler changes one of its dependencies. The ghost predicate
    `Valid()` says that it has caught up.

Clock reads, generated ids and whether a storage write throws are method
parameters. `writeFails` models `localStorage.setItem` throwing.

## Model

| member | source | states |
|---|---|---|
| Text.TrimStart | src/App.jsx:92 | the result is a suffix of the input, every dropped character is whitespace, and the result does not start with whitespace |
| Text.TrimEnd | src/App.jsx:92 | the result is a prefix of the input, every dropped character is whitespace, and the result does not end with whitespace |
| Text.BlankIffAllWhitespace | src/App.jsx:92 | `!s.trim()` holds exactly when every character of `s` is whitespace, the empty string included |
| Text.TrimIsSlice | src/App.jsx:92 | the trimmed string is a contiguous slice of the input |
| Text.TrimEndsNotWhitespace | src/App.jsx:92 | the trimmed string is empty or starts and ends with a non-whitespace character |
| Text.ToLower | src/App.jsx:63-65 | lower-casing keeps the length, turns each ASCII capital into its lower-case letter (code point plus 32), keeps every other character in place, and so leaves no ASCII capital |
| Text.ToLowerIgnoresCase | src/App.jsx:63-65 | two strings that differ only in the case of ASCII letters lower-case to the same string |
| Text.IncludesIffOccurs | src/App.jsx:63-65 | `hay.includes(needle)` holds exactly when `needle` occurs in `hay` at some index |
| Visibility.Filter | src/App.jsx:57-75 | `filter` never lengthens the list |
| Visibility.FilterFilter | src/App.jsx:57-75 | filtering by one predicate and then another is filtering once by both, so the survivors keep their order in the input |
| Visibility.FilterCommutes | src/App.jsx:57-75 | two filters give the same list in either order |
| Visibility.FilterMultiplicity | src/App.jsx:57-75 | `filter` keeps each element that satisfies the predicate exactly as often as it occurs, and drops every other element |
| Visibility.MatchesSearchIffSubstring | src/App.jsx:61-67 | a ticket passes the search exactly when the lower-cased term is a substring of its lower-cased title, description or ticket id |
| Visibility.SearchIgnoresCase | src/App.jsx:61-67 | two search terms that differ only in the case of ASCII letters match the same tickets |
| Visibility.FilteredIsShown | src/App.jsx:54-75 | the four steps together keep exactly the tickets that pass `Shown`, in the collection's order |
| Visibility.InsertNewest | src/App.jsx:77 | insertion into a newest-first list keeps it newest first, adds exactly the one ticket, and puts either that ticket or the old head in front |
| Visibility.SortNewestFirst | src/App.jsx:77 | the sorted list is newest first and a permutation of its input |
| Visibility.InsertNewestStable | src/App.jsx:77 | an inserted ticket goes ahead of every ticket with the same `createdAt` and leaves their order alone |
| Visibility.SortNewestFirstStable | src/App.jsx:77 | the sort is stable: tickets with the same `createdAt` keep their relative order |
| Visibility.StableNewestFirstUnique | src/App.jsx:77 | two newest-first lists with the same order within every instant are equal, so a stable newest-first sort has only one possible result |
| Visibility.VisibleMultiplicity | src/App.jsx:54-79 | a ticket appears in the visible list as often as in the collection if it passes all four steps, and not at all otherwise |
| Visibility.VisibleWithinTickets | src/App.jsx:54-79 | the visible list is a sub-multiset of the collection |
| Visibility.WorkerSeesOnlyOwn | src/App.jsx:57-59 | a worker sees only tickets they submitted, whatever the search and drop-downs |
| Visibility.StaffSeesAll | src/App.jsx:54-79 | an IT user with an empty search and both drop-downs on `'all'` sees every ticket of the collection |
| Visibility.VisibleOrder | src/App.jsx:77 | the visible list is newest first, and within every instant it keeps the order the filters produced |
| Visibility.VisibleInstantInCollectionOrder | src/App.jsx:54-79 | within each instant, the visible list holds the collection's tickets of that instant that pass every step, in the collection's order |
| Visibility.VisibleDetermined | src/App.jsx:54-79 | every stable newest-first ordering of the filtered tickets equals the visible list, so recomputing it gives the same sequence |
| Lifecycle.TicketId | src/App.jsx:98 | an id is `TKT-` followed by one to six characters |
| Lifecycle.DecimalEndsInLowDigits | src/App.jsx:98 | a number with at least `k` digits prints ending in its `k` lowest decimal digits |
| Lifecycle.LowDigitsPeriodic | src/App.jsx:98 | adding `10^k` leaves the `k` lowest decimal digits unchanged |
| Lifecycle.TicketIdOfTime | src/App.jsx:98 | from 100000 ms on, the id is `TKT-` followed by the six lowest digits of the clock |
| Lifecycle.SameLowDigitsSameId | src/App.jsx:98 | two clock readings with the same six lowest digits give the same id |
| Lifecycle.TicketIdRepeats | src/App.jsx:98 | ids repeat every 1000000 ms, so they are not unique |
| Lifecycle.Create | src/App.jsx:91-113 | creation fails exactly when the title or the description trims to nothing. Otherwise the new collection is one longer, keeps the old tickets behind the new one, and the new ticket is `open`, unassigned and comment-free, submitted by the current user, with the form's fields, the given id and both timestamps |
| Lifecycle.CreatedTicketHasText | src/App.jsx:92-95 | a created ticket's title and description each contain a non-whitespace character |
| Lifecycle.Restatus | src/App.jsx:117-123 | the copy gets the new status and `updatedAt`. The assignee becomes the actor exactly when the move is to `in-progress` and the ticket was unassigned (null or empty); otherwise it is kept. Every other field is unchanged |
| Lifecycle.SetStatus | src/App.jsx:116-126 | the collection keeps its length and every id. Tickets with other ids are unchanged, and tickets with the id get the `Restatus` copy |
| Lifecycle.SetStatusKeepsAssigneeAndComments | src/App.jsx:116-126 | a status change never touches comments, and never changes an assignee that is already set |
| Lifecycle.AssigneeSticky | src/App.jsx:122 | once a ticket has an assignee, no sequence of status changes alters it |
| Lifecycle.WithComment | src/App.jsx:146-150 | the copy has exactly one more comment, the new one at the end after the old ones in order, and the new `updatedAt`. Nothing else changes |
| Lifecycle.AppendComment | src/App.jsx:144-153 | the collection keeps its length and ids. Tickets with other ids are unchanged, and tickets with the id get the comment appended |
| Lifecycle.CommentsOnlyGrow | src/App.jsx:144-153 | every ticket keeps its old comments, in order, as a prefix |
| Lifecycle.FindById | src/App.jsx:130 | `find` gives nothing exactly when no ticket has the id, and otherwise a ticket of the collection with that id |
| Lifecycle.FindByIdFirst | src/App.jsx:130 | the ticket found is the first one with the id |
| Lifecycle.FindAfterSetStatus | src/App.jsx:129-131 | re-reading the changed id after a status change gives the `Restatus` copy of the ticket found before |
| Lifecycle.FindOtherAfterSetStatus | src/App.jsx:129-131 | a status change on one id does not change what `find` returns for any other id |
| Lifecycle.Reselect | src/App.jsx:129-131 | no selection, or a selection of another id, is kept as it was. A selection of the changed id is re-read as the first ticket with that id in the updated collection, and it is present exactly when that collection holds the id. The selection never changes its id |
| Lifecycle.ReselectAfterSetStatus | src/App.jsx:129-131 | a selection that was the current copy of its id stays current after a status change |
| Lifecycle.FindAfterAppendComment | src/App.jsx:156 | re-reading the selected id after a comment gives the old ticket with the comment appended |
| Lifecycle.StatusButtons | src/App.jsx:523-558 | the detail panel offers a target exactly when the user has the `it` role and the move is open→in-progress, in-progress→resolved, resolved→closed or in-progress/resolved→open. Nothing is offered out of closed |
| App.TicketApp.constructor | src/App.jsx:5-22 | the initial state: no user, an empty collection and visible list, loading, no selection, empty search, both drop-downs on `'all'`, the default form, an empty comment box |
| App.TicketApp.ApplyFilters | src/App.jsx:28-30 | after the effect runs, the visible list is `Visible` of the current collection, user, search term and drop-downs |
| App.TicketApp.LoadData | src/App.jsx:32-42 | a saved collection is adopted, and then memory agrees with storage. A missing or unreadable entry leaves the collection as it was. Loading ends either way |
| App.TicketApp.SaveTickets | src/App.jsx:44-52 | when the write throws, the collection and storage keep their old values. Otherwise both hold the written collection |
| App.TicketApp.HandleLogin | src/App.jsx:81-83 | the current user becomes the given name and role |
| App.TicketApp.HandleLogout | src/App.jsx:85-89 | no user, no selection, form closed |
| App.TicketApp.SetSearchTerm | src/App.jsx:295 | the search term becomes the typed text |
| App.TicketApp.SetFilterStatus | src/App.jsx:302 | the status drop-down takes the chosen value |
| App.TicketApp.SetFilterPriority | src/App.jsx:314 | the priority drop-down takes the chosen value |
| App.TicketApp.SetShowNewTicket | src/App.jsx:279 | the form opens or closes, and the visible list stays up to date |
| App.TicketApp.SelectTicket | src/App.jsx:341 | a clicked visible ticket becomes the selection, and the visible list stays up to date |
| App.TicketApp.CloseTicket | src/App.jsx:476 | the selection is cleared, and the visible list stays up to date |
| App.TicketApp.EditDraft | src/App.jsx:412 | the form holds the edited draft, and the visible list stays up to date |
| App.TicketApp.SetCommentText | src/App.jsx:584 | the comment box holds the typed text, and the visible list stays up to date |
| App.TicketApp.CreateTicket | src/App.jsx:91-113 | with a blank title or description nothing changes. Otherwise the collection with the new ticket in front is written, adopted only if the write succeeds, and the form is reset and closed either way. A failed write leaves memory and storage as they agreed before |
| App.TicketApp.UpdateTicketStatus | src/App.jsx:115-132 | the collection with the new status on every ticket of the id is written and adopted only on success. A selection of that id is re-read from the attempted collection, and a current selection stays current after a successful write |
| App.TicketApp.ChooseStatus | src/App.jsx:523-558 | a status button can only move an IT user's selected ticket along an allowed edge. When the selected id is in the collection, the re-read selection has the chosen status, even after a failed write. After a successful write, a current selection stays current |
| App.TicketApp.AddComment | src/App.jsx:134-158 | with blank text or no selection nothing changes. Otherwise the collection with the comment appended to the selected ticket is written and adopted only on success, the selection is re-read, the box is cleared, and a current selection stays current after a successful write |

## Left out

- The JSX rendering, layout and the colour helpers `getStatusColor` and `getPriorityColor` (src/App.jsx:160-178, 191-610) are not modelled: they only choose markup and CSS classes.
- `formatDate` (src/App.jsx:180-189) is not modelled: it depends on the locale through `toLocaleString`.
- `JSON.stringify` and `JSON.parse` are not modelled. Storage holds the collection itself (`Saved`), or nothing, or text that fails to parse (`Corrupt`).
- Every clock read (`Date.now()`, `new Date().toISOString()`), and the random username suffix in `handleLogin`, is a method parameter. ISO-8601 timestamps are integers. Inside `tickets.map` the clock is read once per matching ticket; the model reads it once per update.
- `alert` and `console` output on a failed write, a blank form or an unreadable entry are not modelled.
- React's scheduling is not modelled. It re-renders, batches state updates and runs the `applyFilters` effect. Handlers are methods that change the fields, `ApplyFilters` is a separate step, and `Valid()` says whether it has caught up. Each handler sees the state before its own updates, as the closures do.
- Visibility.Filter: its own contract bounds only the length. What it keeps, how often and in which order are stated by `FilterMultiplicity`, `FilterFilter` and `FilterCommutes`.
- Text.ToLower: covers the ASCII letters only, because `toLowerCase` uses Unicode case mapping, which is out of scope here.
- Ticket-id uniqueness is not claimed, because the code does not ensure it. `Lifecycle.TicketIdRepeats` shows that ids repeat. With duplicate ids, `find` returns the first match and `updateTicketStatus` and `addComment` change every ticket with the id, as the model does.
- The handlers require a logged-in user, because `App` renders the dashboard only when `currentUser` is set (src/App.jsx:191-227).
- `updatedAt` never going backwards is not stated, because it needs a monotone clock, which the parameters do not guarantee.
- `Date` parsing in the sort comparator is not modelled. `createdAt` is an integer, so an unparseable date string and its `NaN` comparisons cannot arise.
- Behaviour of the code that the model keeps as written:
  - `updateTicketStatus` checks no transition; only the buttons limit the targets, as in `Lifecycle.StatusButtons` and `App.TicketApp.ChooseStatus`.
  - A missing id is not an error: the collection is written back unchanged, and a selection with that id is re-read as empty.
  - The assignee is set on any move to `in-progress` while unassigned, and an empty string counts as unassigned, as `!t.assignedTo` does.
  - The roles are `worker` and `it`.
  - After a failed write, `updateTicketStatus` and `addComment` still re-read the selected ticket from the collection they tried to save. The detail panel can then show a change that the collection did not keep.
