/** The ticket operations of the component, on the collection as a value:
    creating a ticket, changing a status, appending a comment, finding a
    ticket by id, and the status buttons the detail panel offers. */
module Lifecycle {
  import opened Tickets
  import opened Text

  // ---------------------------------------------------------------------
  // Ticket ids: `TKT-` followed by the last six decimal digits of the
  // millisecond clock.

  function Digit(d: nat): char
    requires d < 10
  {
    "0123456789"[d]
  }

  /** `n.toString()` for a natural number. */
  function Decimal(n: nat): (r: string)
    ensures |r| >= 1
  {
    if n < 10 then [Digit(n)] else Decimal(n / 10) + [Digit(n % 10)]
  }

  /** `s.slice(-6)`: the last six characters, or all of a shorter string. */
  function LastSix(s: string): string {
    if |s| <= 6 then s else s[|s| - 6..]
  }

  /** The id `createTicket` gives a ticket created at millisecond `nowMs`. */
  function TicketId(nowMs: nat): (r: string)
    ensures 5 <= |r| <= 10 && r[..4] == "TKT-"
  {
    "TKT-" + LastSix(Decimal(nowMs))
  }

  function Pow10(k: nat): (r: nat)
    ensures r >= 1
  {
    if k == 0 then 1 else 10 * Pow10(k - 1)
  }

  /** The `k` lowest decimal digits of `n`, with leading zeros. */
  function LowDigits(n: nat, k: nat): (r: string)
    ensures |r| == k
  {
    if k == 0 then [] else LowDigits(n / 10, k - 1) + [Digit(n % 10)]
  }

  /** A number with at least `k` digits ends in its `k` lowest digits. */
  lemma {:induction false} DecimalEndsInLowDigits(n: nat, k: nat)
    requires k >= 1 && n >= Pow10(k - 1)
    ensures |Decimal(n)| >= k && Decimal(n)[|Decimal(n)| - k..] == LowDigits(n, k)
  {
    if k > 1 {
      DecimalEndsInLowDigits(n / 10, k - 1);
      var d := Decimal(n / 10);
      assert Decimal(n) == d + [Digit(n % 10)];
      assert Decimal(n)[|Decimal(n)| - k..] == d[|d| - (k - 1)..] + [Digit(n % 10)];
    }
  }

  /** Adding `10^k` leaves the `k` lowest digits alone. */
  lemma {:induction false} LowDigitsPeriodic(n: nat, k: nat)
    ensures LowDigits(n + Pow10(k), k) == LowDigits(n, k)
  {
    if k > 0 {
      var p := Pow10(k - 1);
      assert (n + 10 * p) / 10 == n / 10 + p;
      assert (n + 10 * p) % 10 == n % 10;
      LowDigitsPeriodic(n / 10, k - 1);
    }
  }

  lemma SixDigitPowers()
    ensures Pow10(5) == 100000 && Pow10(6) == 1000000
  {
  }

  /** The id of a time with at least six digits is `TKT-` followed by its
      six lowest digits. */
  lemma TicketIdOfTime(nowMs: nat)
    requires nowMs >= 100000
    ensures TicketId(nowMs) == "TKT-" + LowDigits(nowMs, 6)
  {
    SixDigitPowers();
    DecimalEndsInLowDigits(nowMs, 6);
    var a := Decimal(nowMs);
    assert |a| == 6 ==> a == a[|a| - 6..];
    assert LastSix(a) == LowDigits(nowMs, 6);
  }

  /** Adding a million leaves the six lowest digits alone. */
  lemma SixDigitsPeriodic(nowMs: nat)
    ensures LowDigits(nowMs + 1000000, 6) == LowDigits(nowMs, 6)
  {
    SixDigitPowers();
    LowDigitsPeriodic(nowMs, 6);
  }

  /** Ticket ids repeat every million milliseconds (about 17 minutes), so
      they are not unique. */
  lemma TicketIdRepeats(nowMs: nat)
    requires nowMs >= 100000
    ensures TicketId(nowMs + 1000000) == TicketId(nowMs)
  {
    SixDigitsPeriodic(nowMs);
    SameLowDigitsSameId(nowMs, nowMs + 1000000);
  }

  /** Times with the same six lowest digits, each of at least six digits,
      get the same id. */
  lemma SameLowDigitsSameId(a: nat, b: nat)
    requires a >= 100000 && b >= 100000 && LowDigits(a, 6) == LowDigits(b, 6)
    ensures TicketId(a) == TicketId(b)
  {
    TicketIdOfTime(a);
    TicketIdOfTime(b);
  }

  // ---------------------------------------------------------------------
  // Creating a ticket.

  /** The ticket record `createTicket` builds from the form. */
  function NewTicket(id: string, draft: Draft, submitter: string, createdAt: int, updatedAt: int): Ticket {
    Ticket(id, draft.title, draft.description, draft.category, draft.priority,
           Open, submitter, None, createdAt, updatedAt, [])
  }

  /** `createTicket` on the collection: `None` when the title or the
      description trims to nothing, otherwise the collection with the new
      ticket in front. The two instants are the two clock reads for
      `createdAt` and `updatedAt`. */
  function Create(tickets: seq<Ticket>, draft: Draft, submitter: string, id: string,
                  createdAt: int, updatedAt: int): (r: Option<seq<Ticket>>)
    ensures r.None? <==> Blank(draft.title) || Blank(draft.description)
    ensures r.Some? ==> |r.value| == |tickets| + 1 && r.value[1..] == tickets
    ensures r.Some? ==>
      var t := r.value[0];
      && t.ticketId == id && t.submittedBy == submitter
      && t.status == Open && t.assignedTo == None && t.comments == []
      && t.title == draft.title && t.description == draft.description
      && t.category == draft.category && t.priority == draft.priority
      && t.createdAt == createdAt && t.updatedAt == updatedAt
  {
    if Blank(draft.title) || Blank(draft.description) then None
    else Some([NewTicket(id, draft, submitter, createdAt, updatedAt)] + tickets)
  }

  /** A created ticket's title and description each hold a character that
      is not whitespace. */
  lemma CreatedTicketHasText(tickets: seq<Ticket>, draft: Draft, submitter: string, id: string,
                             createdAt: int, updatedAt: int)
    requires Create(tickets, draft, submitter, id, createdAt, updatedAt).Some?
    ensures exists i :: 0 <= i < |draft.title| && !IsWhitespace(draft.title[i])
    ensures exists i :: 0 <= i < |draft.description| && !IsWhitespace(draft.description[i])
  {
    BlankIffAllWhitespace(draft.title);
    BlankIffAllWhitespace(draft.description);
  }

  // ---------------------------------------------------------------------
  // Changing a status.

  /** The copy `updateTicketStatus` makes of a matching ticket. */
  function Restatus(t: Ticket, newStatus: Status, actor: string, now: int): (r: Ticket)
    ensures r.status == newStatus && r.updatedAt == now
    ensures newStatus == InProgress && Unassigned(t) ==> r.assignedTo == Some(actor)
    ensures !(newStatus == InProgress && Unassigned(t)) ==> r.assignedTo == t.assignedTo
    ensures r.(status := t.status, updatedAt := t.updatedAt, assignedTo := t.assignedTo) == t
  {
    t.(status := newStatus, updatedAt := now,
       assignedTo := if newStatus == InProgress && Unassigned(t) then Some(actor) else t.assignedTo)
  }

  /** `tickets.map(...)` in `updateTicketStatus`: every ticket with the id is
      replaced by its copy with the new status, every other ticket is kept. */
  function SetStatus(tickets: seq<Ticket>, id: string, newStatus: Status, actor: string, now: int): (r: seq<Ticket>)
    ensures |r| == |tickets|
    ensures forall i :: 0 <= i < |r| ==> r[i].ticketId == tickets[i].ticketId
    ensures forall i :: 0 <= i < |r| && tickets[i].ticketId != id ==> r[i] == tickets[i]
    ensures forall i :: 0 <= i < |r| && tickets[i].ticketId == id ==>
                        r[i] == Restatus(tickets[i], newStatus, actor, now)
  {
    if tickets == [] then []
    else
      var t := tickets[0];
      [if t.ticketId == id then Restatus(t, newStatus, actor, now) else t] +
      SetStatus(tickets[1..], id, newStatus, actor, now)
  }

  /** Once a ticket has an assignee, changing its status keeps it, and its
      comments are never touched. */
  lemma SetStatusKeepsAssigneeAndComments(tickets: seq<Ticket>, id: string, newStatus: Status,
                                          actor: string, now: int)
    ensures var r := SetStatus(tickets, id, newStatus, actor, now);
            forall i :: 0 <= i < |tickets| ==>
              && r[i].comments == tickets[i].comments
              && (!Unassigned(tickets[i]) ==> r[i].assignedTo == tickets[i].assignedTo)
  {
  }

  /** One status change as the IT user triggers it. */
  datatype StatusChange = StatusChange(status: Status, actor: string, now: int)

  /** A ticket after a series of status changes. */
  function Replay(t: Ticket, changes: seq<StatusChange>): Ticket
    decreases changes
  {
    if changes == [] then t
    else Replay(Restatus(t, changes[0].status, changes[0].actor, changes[0].now), changes[1..])
  }

  /** The first IT user to start work on an unassigned ticket stays its
      assignee through every later status change. */
  lemma {:induction false} AssigneeSticky(t: Ticket, changes: seq<StatusChange>)
    requires !Unassigned(t)
    ensures Replay(t, changes).assignedTo == t.assignedTo
    ensures Replay(t, changes).comments == t.comments
    decreases changes
  {
    if changes != [] {
      AssigneeSticky(Restatus(t, changes[0].status, changes[0].actor, changes[0].now), changes[1..]);
    }
  }

  // ---------------------------------------------------------------------
  // Appending a comment.

  /** The copy `addComment` makes of the selected ticket. */
  function WithComment(t: Ticket, c: Comment, now: int): (r: Ticket)
    ensures |r.comments| == |t.comments| + 1
    ensures r.comments[..|t.comments|] == t.comments && r.comments[|t.comments|] == c
    ensures r.updatedAt == now
    ensures r.(comments := t.comments, updatedAt := t.updatedAt) == t
  {
    t.(comments := t.comments + [c], updatedAt := now)
  }

  /** `tickets.map(...)` in `addComment`. */
  function AppendComment(tickets: seq<Ticket>, id: string, c: Comment, now: int): (r: seq<Ticket>)
    ensures |r| == |tickets|
    ensures forall i :: 0 <= i < |r| ==> r[i].ticketId == tickets[i].ticketId
    ensures forall i :: 0 <= i < |r| && tickets[i].ticketId != id ==> r[i] == tickets[i]
    ensures forall i :: 0 <= i < |r| && tickets[i].ticketId == id ==> r[i] == WithComment(tickets[i], c, now)
  {
    if tickets == [] then []
    else
      var t := tickets[0];
      [if t.ticketId == id then WithComment(t, c, now) else t] + AppendComment(tickets[1..], id, c, now)
  }

  /** Comments only grow: every ticket keeps its comments, in order, as a
      prefix. */
  lemma CommentsOnlyGrow(tickets: seq<Ticket>, id: string, c: Comment, now: int)
    ensures var r := AppendComment(tickets, id, c, now);
            forall i :: 0 <= i < |tickets| ==>
              |tickets[i].comments| <= |r[i].comments| &&
              r[i].comments[..|tickets[i].comments|] == tickets[i].comments
  {
  }

  // ---------------------------------------------------------------------
  // Looking a ticket up again: `updatedTickets.find(t => t.ticketId === id)`.

  /** The first ticket with the id, if any. */
  function FindById(tickets: seq<Ticket>, id: string): (r: Option<Ticket>)
    ensures r.None? <==> forall i :: 0 <= i < |tickets| ==> tickets[i].ticketId != id
    ensures r.Some? ==> r.value in tickets && r.value.ticketId == id
  {
    if tickets == [] then None
    else if tickets[0].ticketId == id then Some(tickets[0])
    else FindById(tickets[1..], id)
  }

  /** The ticket found is the first one with the id. */
  lemma {:induction false} FindByIdFirst(tickets: seq<Ticket>, id: string)
    requires FindById(tickets, id).Some?
    ensures exists k :: 0 <= k < |tickets| && tickets[k] == FindById(tickets, id).value &&
                        forall j :: 0 <= j < k ==> tickets[j].ticketId != id
  {
    if tickets[0].ticketId != id {
      FindByIdFirst(tickets[1..], id);
      var k :| 0 <= k < |tickets| - 1 && tickets[1..][k] == FindById(tickets, id).value &&
               forall j :: 0 <= j < k ==> tickets[1..][j].ticketId != id;
      assert tickets[k + 1] == FindById(tickets, id).value;
    } else {
      assert tickets[0] == FindById(tickets, id).value;
    }
  }

  /** Re-reading a ticket after a status change gives the copy with the new
      status of the ticket the old collection held. */
  lemma {:induction false} FindAfterSetStatus(tickets: seq<Ticket>, id: string, newStatus: Status,
                                              actor: string, now: int)
    ensures FindById(SetStatus(tickets, id, newStatus, actor, now), id) ==
            match FindById(tickets, id)
            case None => None
            case Some(t) => Some(Restatus(t, newStatus, actor, now))
  {
    if tickets != [] && tickets[0].ticketId != id {
      FindAfterSetStatus(tickets[1..], id, newStatus, actor, now);
    }
  }

  /** A status change on one id leaves the lookup of every other id alone. */
  lemma {:induction false} FindOtherAfterSetStatus(tickets: seq<Ticket>, id: string, other: string,
                                                   newStatus: Status, actor: string, now: int)
    requires other != id
    ensures FindById(SetStatus(tickets, id, newStatus, actor, now), other) == FindById(tickets, other)
  {
    if tickets != [] && tickets[0].ticketId != other {
      FindOtherAfterSetStatus(tickets[1..], id, other, newStatus, actor, now);
    }
  }

  /** A held copy of a ticket is the one the collection currently has under
      its id. */
  predicate CurrentIn(held: Option<Ticket>, tickets: seq<Ticket>) {
    held.Some? ==> held == FindById(tickets, held.value.ticketId)
  }

  /** The selection after a ticket of id `id` changed in `updated`: the
      changed ticket is re-read, any other selection is kept. */
  function Reselect(held: Option<Ticket>, id: string, updated: seq<Ticket>): (r: Option<Ticket>)
    ensures !(held.Some? && held.value.ticketId == id) ==> r == held
    ensures held.Some? && held.value.ticketId == id ==> r == FindById(updated, id)
    ensures r.Some? ==> held.Some? && r.value.ticketId == held.value.ticketId
    ensures held.Some? && held.value.ticketId == id ==> (r.Some? <==> exists i :: 0 <= i < |updated| && updated[i].ticketId == id)
  {
    if held.Some? && held.value.ticketId == id then FindById(updated, id) else held
  }

  /** After a status change, the selection `updateTicketStatus` keeps, or
      re-reads when it is the changed ticket, is current in the new
      collection if it was current in the old one. */
  lemma ReselectAfterSetStatus(tickets: seq<Ticket>, id: string, newStatus: Status, actor: string,
                               now: int, held: Option<Ticket>)
    requires CurrentIn(held, tickets)
    ensures var r := SetStatus(tickets, id, newStatus, actor, now);
            CurrentIn(Reselect(held, id, r), r)
  {
    if held.Some? && held.value.ticketId != id {
      FindOtherAfterSetStatus(tickets, id, held.value.ticketId, newStatus, actor, now);
    }
  }

  /** Re-reading the selected ticket after a comment gives its old copy with
      the comment appended. */
  lemma {:induction false} FindAfterAppendComment(tickets: seq<Ticket>, id: string, c: Comment, now: int)
    ensures FindById(AppendComment(tickets, id, c, now), id) ==
            match FindById(tickets, id)
            case None => None
            case Some(t) => Some(WithComment(t, c, now))
  {
    if tickets != [] && tickets[0].ticketId != id {
      FindAfterAppendComment(tickets[1..], id, c, now);
    }
  }

  // ---------------------------------------------------------------------
  // The status buttons.

  /** The lifecycle: open, in progress, resolved, closed, and reopening
      from in progress or resolved. Nothing leaves closed. */
  predicate Edge(from: Status, to: Status) {
    || (from == Open && to == InProgress)
    || (from == InProgress && to == Resolved)
    || (from == Resolved && to == Closed)
    || (from == InProgress && to == Open)
    || (from == Resolved && to == Open)
  }

  /** The targets of the buttons the detail panel shows for a ticket in
      `status`: only IT users get any. */
  function StatusButtons(role: Role, status: Status): (r: set<Status>)
    ensures forall target :: target in r <==> role == It && Edge(status, target)
  {
    if role != It then {}
    else
      (if status == Open then {InProgress} else {}) +
      (if status == InProgress then {Resolved} else {}) +
      (if status == Resolved then {Closed} else {}) +
      (if status != Open && status != Closed then {Open} else {})
  }
}
