/** The records the ticket component keeps: tickets, their comments, the
    logged-in user and the new-ticket form. */
module Tickets {

  datatype Option<+T> = None | Some(value: T)

  /** `'worker'` submits tickets; `'it'` staff work on them. */
  datatype Role = Worker | It

  datatype User = User(username: string, role: Role)

  /** `'open'`, `'in-progress'`, `'resolved'`, `'closed'` */
  datatype Status = Open | InProgress | Resolved | Closed

  datatype Priority = Low | Medium | High | Critical

  datatype Category = Hardware | Software | Network | Access | Other

  /** Timestamps (ISO-8601 strings in the source) are instants as integers. */
  datatype Comment = Comment(id: int, author: string, text: string, timestamp: int)

  datatype Ticket = Ticket(
    ticketId: string,
    title: string,
    description: string,
    category: Category,
    priority: Priority,
    status: Status,
    submittedBy: string,
    assignedTo: Option<string>,
    createdAt: int,
    updatedAt: int,
    comments: seq<Comment>)

  /** The new-ticket form (`newTicket` state). */
  datatype Draft = Draft(title: string, description: string, category: Category, priority: Priority)

  /** The form's initial and reset value. */
  const EmptyDraft := Draft("", "", Hardware, Medium)

  /** `!t.assignedTo`: null and the empty string are both falsy. */
  predicate Unassigned(t: Ticket) {
    t.assignedTo.None? || t.assignedTo.value == ""
  }
}
