/**
 * What one call to the service does to one ticket (apps/tickets/services.py), as functions:
 * which calls are refused, the row afterwards, and the rows appended.
 */
module Workflow {
  import opened Wrappers
  import opened Vocabulary
  import opened Records
  import opened Text

  const PICKED_UP := "Automatically assigned when the ticket was picked up."
  const RETURNED := "Returned to the queue after losing its assignee."

  /** The guards every mutator starts with: a closed ticket, then a stale version. */
  function EntryRefusal(row: Row, expected: Option<int>): Option<Error> {
    if IsTerminal(row.status) then Some(TicketClosed(row.status, []))
    else if expected.Some? && expected.value != row.version then Some(VersionConflict(expected.value, row.version))
    else None
  }

  /** All guard clauses, in their order; None lets the call through. */
  function Refusal(row: Row, op: Op): Option<Error> {
    if EntryRefusal(row, op.expected).Some? then EntryRefusal(row, op.expected)
    else if op.command.ChangeStatus? && !IsTransitionAllowed(row.status, op.command.target) then
      Some(InvalidTransition(row.status, op.command.target, AllowedFrom(row.status)))
    else None
  }

  /** Moving to a status that needs an owner claims an unowned ticket. */
  predicate PicksUp(row: Row, target: Status) {
    RequiresAssignee(target) && row.assignee == None
  }

  datatype Edit = Edit(field: Field, before: string, after: string)

  /** The text columns that really change, in the order they are recorded. */
  function Edits(row: Row, subject: Option<string>, description: Option<string>): seq<Edit> {
    (if subject.Some? && Strip(subject.value) != row.subject
     then [Edit(SubjectField, row.subject, Strip(subject.value))] else []) +
    (if description.Some? && Strip(description.value) != row.description
     then [Edit(DescriptionField, row.description, Strip(description.value))] else [])
  }

  /** Calls that return before writing anything. */
  predicate IsNoOp(row: Row, op: Op) {
    match op.command
    case ChangeStatus(_, _) => false
    case Assign(assignee, _) => row.assignee == assignee
    case ChangePriority(priority, _) => row.priority == priority
    case UpdateDetails(subject, description) => Edits(row, subject, description) == []
    case AddComment(_, _) => false
  }

  function WithAssignee(row: Row, assignee: User, at: nat): Row {
    row.(
      assignee := Some(assignee),
      firstAssignedAt := if row.firstAssignedAt == None then Some(at) else row.firstAssignedAt)
  }

  function WithStatus(row: Row, target: Status, at: nat): Row {
    row.(
      status := target,
      resolvedAt :=
        if target == Resolved then Some(at)
        else if target == Closed then row.resolvedAt
        else None,
      closedAt := if target == Closed then Some(at) else row.closedAt)
  }

  function WithText(row: Row, subject: Option<string>, description: Option<string>): Row {
    row.(
      subject := if subject.Some? then Strip(subject.value) else row.subject,
      description := if description.Some? then Strip(description.value) else row.description)
  }

  /** The bookkeeping of every state change: the version, and when the row was written. */
  function Saved(row: Row, w: Readings): Row {
    row.(version := row.version + 1, lastActivityAt := w[3].at, updatedAt := w[4].at)
  }

  /** The row a call that is let through leaves behind. */
  function RowAfter(row: Row, op: Op): Row {
    if IsNoOp(row, op) then row
    else
      match op.command
      case ChangeStatus(target, _) =>
        var owned := if PicksUp(row, target) then WithAssignee(row, op.actor, op.w[0].at) else row;
        Saved(WithStatus(owned, target, op.w[2].at), op.w)
      case Assign(Some(user), _) => Saved(WithAssignee(row, user, op.w[0].at), op.w)
      case Assign(None, _) =>
        Saved(row.(assignee := None, status := if ReturnedOnRelease(row.status) then Open else row.status), op.w)
      case ChangePriority(priority, _) => Saved(row.(priority := priority), op.w)
      case UpdateDetails(subject, description) => Saved(WithText(row, subject, description), op.w)
      case AddComment(_, _) => row.(lastActivityAt := op.w[0].at)
  }

  function AssignedEvent(stamp: Stamp, actor: User, previous: Option<User>, assignee: User, note: string): Event {
    Event(stamp, Some(actor), Assigned, AssigneeField, OwnerName(previous), assignee.name, note, None)
  }

  function StatusEvent(stamp: Stamp, actor: User, before: Status, after: Status, note: string): Event {
    Event(stamp, Some(actor), StatusChanged, StatusField, StatusText(before), StatusText(after), note, None)
  }

  function EditEvent(stamp: Stamp, actor: User, e: Edit): Event {
    Event(stamp, Some(actor), DetailsUpdated, e.field, e.before, e.after, "", None)
  }

  function EditEvents(actor: User, edits: seq<Edit>, w: Readings): seq<Event>
    requires |edits| <= 2
  {
    seq(|edits|, i requires 0 <= i < |edits| => EditEvent(w[5 + i], actor, edits[i]))
  }

  /** The events a call that is let through appends, in order. */
  function EventsFor(row: Row, op: Op): seq<Event> {
    var actor, w := op.actor, op.w;
    if IsNoOp(row, op) then []
    else
      match op.command
      case ChangeStatus(target, note) =>
        (if PicksUp(row, target) then [AssignedEvent(w[1], actor, row.assignee, actor, PICKED_UP)] else []) +
        [StatusEvent(w[5], actor, row.status, target, note)]
      case Assign(Some(user), reason) => [AssignedEvent(w[1], actor, row.assignee, user, reason)]
      case Assign(None, reason) =>
        [Event(w[0], Some(actor), Unassigned, AssigneeField, OwnerName(row.assignee), "", reason, None)] +
        (if ReturnedOnRelease(row.status) then [StatusEvent(w[1], actor, row.status, Open, RETURNED)] else [])
      case ChangePriority(priority, remark) =>
        [Event(w[5], Some(actor), PriorityChanged, PriorityField,
               PriorityText(row.priority), PriorityText(priority), remark, None)]
      case UpdateDetails(subject, description) => EditEvents(actor, Edits(row, subject, description), w)
      case AddComment(_, isInternal) => [CommentEvent(w[1], actor, isInternal, w[0].id)]
  }

  function CommentEvent(stamp: Stamp, actor: User, isInternal: bool, comment: nat): Event {
    Event(stamp, Some(actor), CommentAdded, NoField, "", if isInternal then "internal" else "public", "", Some(comment))
  }

  function CommentsFor(op: Op): seq<Comment> {
    if op.command.AddComment?
    then [Comment(op.w[0], op.actor, Strip(op.command.body), op.command.isInternal)]
    else []
  }

  /** One atomic call on one ticket. */
  function Apply(t: Ticket, op: Op): Answer<Ticket> {
    match Refusal(t.row, op)
    case Some(e) => Err(e)
    case None => Ok(Ticket(RowAfter(t.row, op), t.events + EventsFor(t.row, op), t.comments + CommentsFor(op)))
  }

  /** The ticket after a call, whatever it answered: a call that raises contributes nothing. */
  function Commit(t: Ticket, op: Op): Ticket {
    var r := Apply(t, op);
    if r.Ok? then r.value else t
  }

  /** Calls one after the other. */
  function Run(t: Ticket, ops: seq<Op>): Ticket {
    if ops == [] then t else Commit(Run(t, ops[..|ops| - 1]), ops[|ops| - 1])
  }

  /** What the intake hands over, after the duplicate check and the quota. */
  datatype Intake = Intake(
    subject: string,
    description: string,
    reportedPriority: Priority,
    priority: Option<Priority>,
    customerName: string,
    customer: string,
    actor: Option<User>,
    dedupeHash: Option<string>)

  function Truncated(s: string, n: nat): string { if |s| <= n then s else s[..n] }

  /** The ticket a successful creation inserts, with its first events. */
  function NewTicket(i: Intake, w: Readings): Ticket {
    var priority := if i.priority.Some? then i.priority.value else i.reportedPriority;
    var row := Row(
      Strip(i.subject), Strip(i.description), i.reportedPriority, priority, Open, i.customer,
      Truncated(Strip(i.customerName), 150), None, i.actor, 1, i.dedupeHash,
      w[3].at, w[4].at, w[2].at, None, None, None);
    var created := Event(
      w[5], i.actor, Created, StatusField, "", StatusText(Open),
      if i.actor.Some? then "Created by an agent." else "Created through the public form.", None);
    var classified := Event(
      w[6], i.actor, PriorityChanged, PriorityField, PriorityText(i.reportedPriority), PriorityText(priority),
      "Classified at intake.", None);
    Ticket(row, [created] + (if priority != i.reportedPriority then [classified] else []), [])
  }
}
