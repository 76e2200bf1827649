/** The stored records (apps/tickets/models.py) and what a call to the service carries. */
module Records {
  import opened Wrappers
  import opened Vocabulary

  datatype Role = Agent | Supervisor | OtherRole(title: string)

  /** A staff member. Names and roles are fixed, so equality of values is equality of primary keys. */
  datatype User = User(pk: nat, publicId: string, role: Role, name: string)

  function OwnerName(u: Option<User>): string {
    if u.Some? then u.value.name else ""
  }

  /** The primary key and the creation time of an inserted row. */
  datatype Stamp = Stamp(id: nat, at: nat)

  predicate Follows(a: Stamp, b: Stamp) { a.id < b.id && a.at <= b.at }

  predicate AtMost(a: Stamp, b: Stamp) { a.id <= b.id && a.at <= b.at }

  /**
   * What one call reads from the shared clock and the key sequences, in the order of the code.
   * A branch that takes fewer readings leaves some slots unused; extra observations of a clock
   * and gaps in a key sequence are harmless.
   */
  type Readings = w: seq<Stamp> |
    && |w| == 7
    && Follows(w[0], w[1]) && Follows(w[1], w[2]) && Follows(w[2], w[3])
    && Follows(w[3], w[4]) && Follows(w[4], w[5]) && Follows(w[5], w[6])
    witness [Stamp(0, 0), Stamp(1, 0), Stamp(2, 0), Stamp(3, 0), Stamp(4, 0), Stamp(5, 0), Stamp(6, 0)]

  /** One row of the ticket table. The public id is the key of the table. */
  datatype Row = Row(
    subject: string,
    description: string,
    reportedPriority: Priority,
    priority: Priority,
    status: Status,
    customer: string,
    reportedByName: string,
    assignee: Option<User>,
    createdBy: Option<User>,
    version: nat,
    dedupeHash: Option<string>,
    createdAt: nat,
    updatedAt: nat,
    lastActivityAt: nat,
    firstAssignedAt: Option<nat>,
    resolvedAt: Option<nat>,
    closedAt: Option<nat>)

  /** The three check constraints of the ticket table. */
  predicate MeetsConstraints(row: Row) {
    && (row.status == Resolved ==> row.resolvedAt.Some?)
    && (row.status == Closed ==> row.closedAt.Some?)
    && (row.status == InProgress ==> row.assignee.Some?)
  }

  /** The column an event speaks about. */
  datatype Field = NoField | StatusField | AssigneeField | PriorityField | SubjectField | DescriptionField

  datatype Event = Event(
    stamp: Stamp,
    actor: Option<User>,
    kind: EventType,
    field: Field,
    oldValue: string,
    newValue: string,
    note: string,
    comment: Option<nat>)

  datatype Comment = Comment(stamp: Stamp, author: User, body: string, isInternal: bool)

  /** A ticket with the rows that point at it, each list in insertion order. */
  datatype Ticket = Ticket(row: Row, events: seq<Event>, comments: seq<Comment>)

  datatype Error =
    | NotFound
    | TicketClosed(status: Status, allowed: seq<Status>)
    | VersionConflict(expectedVersion: int, currentVersion: nat)
    | InvalidTransition(current: Status, requested: Status, permitted: seq<Status>)
    | Throttled
    | InvalidHeader

  type Answer<+T> = Result<T, Error>

  /** The five mutators, with their arguments. */
  datatype Command =
    | ChangeStatus(target: Status, note: string)
    | Assign(assignee: Option<User>, reason: string)
    | ChangePriority(priority: Priority, remark: string)
    | UpdateDetails(subject: Option<string>, description: Option<string>)
    | AddComment(body: string, isInternal: bool)

  /** One call: who asks for what, under which `If-Match`, and the readings it takes. */
  datatype Op = Op(actor: User, command: Command, expected: Option<int>, w: Readings)
}
