/** The `App` component's state and its handlers: loading and saving the
    collection, the `applyFilters` effect, creating tickets, changing a
    status and adding a comment. Each handler only changes state; React
    then runs the `applyFilters` effect, modelled by `ApplyFilters`, when
    one of its dependencies changed. */
module App {
  import opened Tickets
  import opened Text
  import opened Visibility
  import opened Lifecycle

  /** What `localStorage.getItem('tickets')` holds: nothing (null or the
      empty string, both falsy), text `JSON.parse` rejects, or a saved
      collection. */
  datatype Stored = Missing | Corrupt | Saved(tickets: seq<Ticket>)

  class TicketApp {
    var currentUser: Option<User>
    var tickets: seq<Ticket>
    var filteredTickets: seq<Ticket>
    var loading: bool
    var showNewTicket: bool
    var selectedTicket: Option<Ticket>
    var searchTerm: string
    var filterStatus: StatusFilter
    var filterPriority: PriorityFilter
    var newTicket: Draft
    var commentText: string
    /** The browser's `localStorage` entry under the key `'tickets'`. */
    var storage: Stored

    /** The `applyFilters` effect has caught up with the state it depends
        on: the collection, the search term, both drop-downs and the user. */
    ghost predicate Valid()
      reads this
    {
      filteredTickets == Visible(tickets, currentUser, searchTerm, filterStatus, filterPriority)
    }

    /** The collection in memory is the one last written to storage. */
    ghost predicate Persisted()
      reads this
    {
      storage == Saved(tickets)
    }

    /** The ticket shown in the detail panel is the current copy of its id. */
    ghost predicate SelectionCurrent()
      reads this
    {
      CurrentIn(selectedTicket, tickets)
    }

    /** The initial `useState` values, over whatever storage already holds. */
    constructor (stored: Stored)
      ensures Valid()
      ensures currentUser == None && tickets == [] && filteredTickets == []
      ensures loading && !showNewTicket && selectedTicket == None
      ensures searchTerm == "" && filterStatus == AllStatuses && filterPriority == AllPriorities
      ensures newTicket == EmptyDraft && commentText == "" && storage == stored
    {
      currentUser := None;
      tickets := [];
      filteredTickets := [];
      loading := true;
      showNewTicket := false;
      selectedTicket := None;
      searchTerm := "";
      filterStatus := AllStatuses;
      filterPriority := AllPriorities;
      newTicket := EmptyDraft;
      commentText := "";
      storage := stored;
    }

    /** `applyFilters`, run as an effect: recomputes the visible list from
        the current state. */
    method ApplyFilters()
      modifies this`filteredTickets
      ensures Valid()
    {
      filteredTickets := Visible(tickets, currentUser, searchTerm, filterStatus, filterPriority);
    }

    /** `loadData`: adopts a saved collection; a missing or unreadable entry
        leaves the collection as it was. */
    method LoadData()
      modifies this`tickets, this`loading
      ensures tickets == if storage.Saved? then storage.tickets else old(tickets)
      ensures storage.Saved? ==> Persisted()
      ensures !loading
    {
      if storage.Saved? {
        tickets := storage.tickets;
      }
      loading := false;
    }

    /** `saveTickets`: writes the whole collection and adopts it only when
        the write does not throw. `writeFails` says whether it throws. */
    method SaveTickets(updated: seq<Ticket>, writeFails: bool)
      modifies this`tickets, this`storage
      ensures writeFails ==> tickets == old(tickets) && storage == old(storage)
      ensures !writeFails ==> tickets == updated && storage == Saved(updated)
      ensures writeFails ==> Persisted() == old(Persisted())
      ensures !writeFails ==> Persisted()
    {
      if !writeFails {
        storage := Saved(updated);
        tickets := updated;
      }
    }

    /** `handleLogin` */
    method HandleLogin(username: string, role: Role)
      modifies this`currentUser
      ensures currentUser == Some(User(username, role))
    {
      currentUser := Some(User(username, role));
    }

    /** `handleLogout` */
    method HandleLogout()
      modifies this`currentUser, this`selectedTicket, this`showNewTicket
      ensures currentUser == None && selectedTicket == None && !showNewTicket
    {
      currentUser := None;
      selectedTicket := None;
      showNewTicket := false;
    }

    /** Typing in the search box. */
    method SetSearchTerm(term: string)
      modifies this`searchTerm
      ensures searchTerm == term
    {
      searchTerm := term;
    }

    /** Choosing in the status drop-down. */
    method SetFilterStatus(f: StatusFilter)
      modifies this`filterStatus
      ensures filterStatus == f
    {
      filterStatus := f;
    }

    /** Choosing in the priority drop-down. */
    method SetFilterPriority(f: PriorityFilter)
      modifies this`filterPriority
      ensures filterPriority == f
    {
      filterPriority := f;
    }

    /** Opening or closing the new-ticket form. */
    method SetShowNewTicket(show: bool)
      modifies this`showNewTicket
      ensures showNewTicket == show
      ensures old(Valid()) ==> Valid()
    {
      showNewTicket := show;
    }

    /** Clicking a ticket of the visible list; the list needs no
        re-filtering. */
    method SelectTicket(t: Ticket)
      requires t in filteredTickets
      modifies this`selectedTicket
      ensures selectedTicket == Some(t)
      ensures old(Valid()) ==> Valid()
    {
      selectedTicket := Some(t);
    }

    /** Closing the detail panel. */
    method CloseTicket()
      modifies this`selectedTicket
      ensures selectedTicket == None
      ensures old(Valid()) ==> Valid()
    {
      selectedTicket := None;
    }

    /** Editing the new-ticket form. */
    method EditDraft(d: Draft)
      modifies this`newTicket
      ensures newTicket == d
      ensures old(Valid()) ==> Valid()
    {
      newTicket := d;
    }

    /** Typing in the comment box. */
    method SetCommentText(text: string)
      modifies this`commentText
      ensures commentText == text
      ensures old(Valid()) ==> Valid()
    {
      commentText := text;
    }

    /** `createTicket`: rejects a blank title or description and changes
        nothing then; otherwise saves the collection with the new ticket in
        front and resets the form, whether or not the write succeeds.
        `nowMs` is the clock read for the id, `createdAt` and `updatedAt`
        the two reads for the timestamps. */
    method CreateTicket(nowMs: nat, createdAt: int, updatedAt: int, writeFails: bool)
      requires currentUser.Some?
      modifies this`tickets, this`storage, this`newTicket, this`showNewTicket
      ensures var attempt := Create(old(tickets), old(newTicket), old(currentUser).value.username,
                                    TicketId(nowMs), createdAt, updatedAt);
              if attempt.None? then
                && tickets == old(tickets) && storage == old(storage)
                && newTicket == old(newTicket) && showNewTicket == old(showNewTicket)
              else
                && tickets == (if writeFails then old(tickets) else attempt.value)
                && storage == (if writeFails then old(storage) else Saved(attempt.value))
                && newTicket == EmptyDraft && !showNewTicket
      ensures writeFails ==> Persisted() == old(Persisted())
    {
      var attempt := Create(tickets, newTicket, currentUser.value.username,
                            TicketId(nowMs), createdAt, updatedAt);
      if attempt.None? {
        return;
      }
      SaveTickets(attempt.value, writeFails);
      newTicket := EmptyDraft;
      showNewTicket := false;
    }

    /** `updateTicketStatus`: saves the collection in which every ticket
        of the id carries the new status and, when that ticket is selected, re-reads it from
        the collection it tried to save, whether or not the write
        succeeds. */
    method UpdateTicketStatus(ticketId: string, newStatus: Status, now: int, writeFails: bool)
      requires currentUser.Some?
      modifies this`tickets, this`storage, this`selectedTicket
      ensures var attempt := SetStatus(old(tickets), ticketId, newStatus, old(currentUser).value.username, now);
              && tickets == (if writeFails then old(tickets) else attempt)
              && storage == (if writeFails then old(storage) else Saved(attempt))
              && selectedTicket == Reselect(old(selectedTicket), ticketId, attempt)
      ensures writeFails ==> Persisted() == old(Persisted())
      ensures !writeFails && old(SelectionCurrent()) ==> SelectionCurrent()
    {
      var attempt := SetStatus(tickets, ticketId, newStatus, currentUser.value.username, now);
      if CurrentIn(selectedTicket, tickets) {
        ReselectAfterSetStatus(tickets, ticketId, newStatus, currentUser.value.username, now, selectedTicket);
      }
      var held := selectedTicket;
      SaveTickets(attempt, writeFails);
      selectedTicket := Reselect(held, ticketId, attempt);
    }

    /** A status button of the detail panel: only the targets
        `StatusButtons` offers for the selected ticket can be chosen, and
        the re-read selection carries the chosen status. */
    method ChooseStatus(target: Status, now: int, writeFails: bool)
      requires currentUser.Some? && selectedTicket.Some?
      requires target in StatusButtons(currentUser.value.role, selectedTicket.value.status)
      modifies this`tickets, this`storage, this`selectedTicket
      ensures currentUser.value.role == It && Edge(old(selectedTicket).value.status, target)
      ensures var id := old(selectedTicket).value.ticketId;
              var attempt := SetStatus(old(tickets), id, target, old(currentUser).value.username, now);
              && tickets == (if writeFails then old(tickets) else attempt)
              && storage == (if writeFails then old(storage) else Saved(attempt))
              && selectedTicket == FindById(attempt, id)
      ensures FindById(old(tickets), old(selectedTicket).value.ticketId).Some? ==>
                selectedTicket.Some? && selectedTicket.value.status == target
      ensures !writeFails && old(SelectionCurrent()) ==> SelectionCurrent()
    {
      var id := selectedTicket.value.ticketId;
      FindAfterSetStatus(tickets, id, target, currentUser.value.username, now);
      UpdateTicketStatus(id, target, now, writeFails);
    }

    /** `addComment`: with blank text or no selected ticket nothing changes;
        otherwise saves the collection with the comment appended to the
        selected ticket, re-reads that ticket from the collection it tried
        to save and clears the comment box, whether or not the write
        succeeds. `commentId` and `timestamp` are the clock reads for the
        comment, `now` the one for the ticket's `updatedAt`. */
    method AddComment(commentId: int, timestamp: int, now: int, writeFails: bool)
      requires currentUser.Some?
      modifies this`tickets, this`storage, this`selectedTicket, this`commentText
      ensures Blank(old(commentText)) || old(selectedTicket).None? ==>
                && tickets == old(tickets) && storage == old(storage)
                && selectedTicket == old(selectedTicket) && commentText == old(commentText)
      ensures !Blank(old(commentText)) && old(selectedTicket).Some? ==>
                var id := old(selectedTicket).value.ticketId;
                var c := Comment(commentId, old(currentUser).value.username, old(commentText), timestamp);
                var attempt := AppendComment(old(tickets), id, c, now);
                && tickets == (if writeFails then old(tickets) else attempt)
                && storage == (if writeFails then old(storage) else Saved(attempt))
                && selectedTicket == FindById(attempt, id)
                && commentText == ""
      ensures writeFails ==> Persisted() == old(Persisted())
      ensures !writeFails && old(SelectionCurrent()) ==> SelectionCurrent()
    {
      if Blank(commentText) || selectedTicket.None? {
        return;
      }
      var id := selectedTicket.value.ticketId;
      var c := Comment(commentId, currentUser.value.username, commentText, timestamp);
      var attempt := AppendComment(tickets, id, c, now);
      FindAfterAppendComment(tickets, id, c, now);
      SaveTickets(attempt, writeFails);
      selectedTicket := FindById(attempt, id);
      commentText := "";
    }
  }
}
