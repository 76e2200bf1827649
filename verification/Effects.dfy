/**
 * What the calls of the service mean: for every command the whole new ticket, and over runs, that each column holds
 * what was last asked for. Stated from the commands alone, not through the functions of Workflow that compute it.
 */
module Effects {
  import opened Wrappers
  import opened Vocabulary
  import opened Records
  import opened Text
  import opened Workflow
  import opened Runs

  // ---- one call

  /** Which calls are refused, and with which error first. */
  lemma RefusalsInOrder(t: Ticket, op: Op)
    ensures t.row.status == Closed ==> Apply(t, op) == Err(TicketClosed(Closed, []))
    ensures t.row.status != Closed && op.expected.Some? && op.expected.value != t.row.version ==>
      Apply(t, op) == Err(VersionConflict(op.expected.value, t.row.version))
    ensures t.row.status != Closed && (op.expected.Some? ==> op.expected.value == t.row.version) ==>
      if op.command.ChangeStatus? && t.row.status !in Predecessors(op.command.target)
      then Apply(t, op) == Err(InvalidTransition(t.row.status, op.command.target, AllowedFrom(t.row.status)))
      else Apply(t, op).Ok?
  {
    ClosedIsTheOnlyTerminal(t.row.status);
    if op.command.ChangeStatus? {
      PredecessorsEnter(t.row.status, op.command.target);
    }
  }

  /** A status change claims a free ticket exactly when work on it begins. */
  predicate Claims(row: Row, target: Status) { target == InProgress && row.assignee == None }

  lemma StatusChange(t: Ticket, op: Op)
    requires op.command.ChangeStatus? && Apply(t, op).Ok?
    ensures var target, claimed, row := op.command.target, Claims(t.row, op.command.target), t.row;
      Commit(t, op).row == row.(
        status := target,
        assignee := if claimed then Some(op.actor) else row.assignee,
        firstAssignedAt := if claimed && row.firstAssignedAt == None then Some(op.w[0].at) else row.firstAssignedAt,
        resolvedAt :=
          if target == Resolved then Some(op.w[2].at) else if target == Closed then row.resolvedAt else None,
        closedAt := if target == Closed then Some(op.w[2].at) else row.closedAt,
        version := row.version + 1, lastActivityAt := op.w[3].at, updatedAt := op.w[4].at)
    ensures Commit(t, op).comments == t.comments
  {
  }

  lemma StatusChangeIsLogged(t: Ticket, op: Op)
    requires op.command.ChangeStatus? && Apply(t, op).Ok?
    ensures
      var claim := Event(op.w[1], Some(op.actor), Assigned, AssigneeField, "", op.actor.name,
                         "Automatically assigned when the ticket was picked up.", None);
      var move := Event(op.w[5], Some(op.actor), StatusChanged, StatusField, StatusText(t.row.status),
                        StatusText(op.command.target), op.command.note, None);
      Commit(t, op).events ==
        t.events + if Claims(t.row, op.command.target) then [claim, move] else [move]
  {
  }

  lemma Assignment(t: Ticket, op: Op)
    requires op.command.Assign? && op.command.assignee.Some? && Apply(t, op).Ok?
    ensures t.row.assignee == op.command.assignee ==> Commit(t, op) == t
    ensures t.row.assignee != op.command.assignee ==>
      && Commit(t, op).row == t.row.(
           assignee := op.command.assignee,
           firstAssignedAt := if t.row.firstAssignedAt == None then Some(op.w[0].at) else t.row.firstAssignedAt,
           version := t.row.version + 1, lastActivityAt := op.w[3].at, updatedAt := op.w[4].at)
      && Commit(t, op).events == t.events + [
           Event(op.w[1], Some(op.actor), Assigned, AssigneeField,
                 if t.row.assignee.Some? then t.row.assignee.value.name else "", op.command.assignee.value.name,
                 op.command.reason, None)]
      && Commit(t, op).comments == t.comments
  {
    NothingAppended(t);
  }

  /** A release: work that somebody was on the hook for goes back to the queue. */
  lemma Release(t: Ticket, op: Op)
    requires op.command.Assign? && op.command.assignee == None && Apply(t, op).Ok?
    ensures t.row.assignee == None ==> Commit(t, op) == t
    ensures t.row.assignee.Some? ==>
      var returned := t.row.status == InProgress || t.row.status == PendingCustomer;
      && Commit(t, op).row == t.row.(
           assignee := None, status := if returned then Open else t.row.status,
           version := t.row.version + 1, lastActivityAt := op.w[3].at, updatedAt := op.w[4].at)
      && Commit(t, op).comments == t.comments
  {
    NothingAppended(t);
  }

  lemma ReleaseIsLogged(t: Ticket, op: Op)
    requires op.command.Assign? && op.command.assignee == None && Apply(t, op).Ok? && t.row.assignee.Some?
    ensures
      var returned := t.row.status == InProgress || t.row.status == PendingCustomer;
      var release := Event(op.w[0], Some(op.actor), Unassigned, AssigneeField, t.row.assignee.value.name, "",
                           op.command.reason, None);
      var back := Event(op.w[1], Some(op.actor), StatusChanged, StatusField, StatusText(t.row.status),
                        StatusText(Open), "Returned to the queue after losing its assignee.", None);
      Commit(t, op).events == t.events + if returned then [release, back] else [release]
  {
  }

  lemma Reclassification(t: Ticket, op: Op)
    requires op.command.ChangePriority? && Apply(t, op).Ok?
    ensures t.row.priority == op.command.priority ==> Commit(t, op) == t
    ensures t.row.priority != op.command.priority ==>
      && Commit(t, op).row == t.row.(
           priority := op.command.priority,
           version := t.row.version + 1, lastActivityAt := op.w[3].at, updatedAt := op.w[4].at)
      && Commit(t, op).events == t.events + [
           Event(op.w[5], Some(op.actor), PriorityChanged, PriorityField, PriorityText(t.row.priority),
                 PriorityText(op.command.priority), op.command.remark, None)]
      && Commit(t, op).comments == t.comments
  {
    NothingAppended(t);
  }

  /** The text a column has after an edit: what was given, stripped, or what it was. */
  function Given(text: Option<string>, before: string): string { if text == None then before else Strip(text.value) }

  lemma Rewording(t: Ticket, op: Op)
    requires op.command.UpdateDetails? && Apply(t, op).Ok?
    ensures
      var subject, description :=
        Given(op.command.subject, t.row.subject), Given(op.command.description, t.row.description);
      if subject == t.row.subject && description == t.row.description then Commit(t, op) == t
      else
        && Commit(t, op).row == t.row.(
             subject := subject, description := description,
             version := t.row.version + 1, lastActivityAt := op.w[3].at, updatedAt := op.w[4].at)
        && Commit(t, op).comments == t.comments
  {
    NothingAppended(t);
  }

  lemma RewordingIsLogged(t: Ticket, op: Op)
    requires op.command.UpdateDetails? && Apply(t, op).Ok?
    ensures
      var subject, description :=
        Given(op.command.subject, t.row.subject), Given(op.command.description, t.row.description);
      var first := Event(op.w[5], Some(op.actor), DetailsUpdated, SubjectField, t.row.subject, subject, "", None);
      var other := if subject != t.row.subject then op.w[6] else op.w[5];
      var second :=
        Event(other, Some(op.actor), DetailsUpdated, DescriptionField, t.row.description, description, "", None);
      Commit(t, op).events == t.events
        + (if subject != t.row.subject then [first] else [])
        + (if description != t.row.description then [second] else [])
  {
    var edits := Edits(t.row, op.command.subject, op.command.description);
    assert |edits| <= 2;
  }

  /** A comment is stored as it was given, and moves nothing in the ticket but the activity stamp. */
  lemma Remark(t: Ticket, op: Op)
    requires op.command.AddComment? && Apply(t, op).Ok?
    ensures Commit(t, op).comments ==
      t.comments + [Comment(op.w[0], op.actor, Strip(op.command.body), op.command.isInternal)]
    ensures Commit(t, op).row == t.row.(lastActivityAt := op.w[0].at)
    ensures Commit(t, op).events == t.events + [
      Event(op.w[1], Some(op.actor), CommentAdded, NoField, "",
            if op.command.isInternal then "internal" else "public", "", Some(op.w[0].id))]
  {
  }

  lemma NothingAppended(t: Ticket)
    ensures t.events + [] == t.events && t.comments + [] == t.comments
  {
  }

  // ---- what was asked for, over runs

  /** The columns a caller can set. */
  datatype Settings = Settings(
    status: Status, assignee: Option<User>, priority: Priority, subject: string, description: string)

  function SettingsOf(row: Row): Settings {
    Settings(row.status, row.assignee, row.priority, row.subject, row.description)
  }

  /** What a request asks to be set, and the two things that go with it: a claim, and a return to the queue. */
  function Ask(s: Settings, actor: User, command: Command): Settings {
    match command
    case ChangeStatus(target, _) =>
      s.(status := target, assignee := if target == InProgress && s.assignee == None then Some(actor) else s.assignee)
    case Assign(Some(user), _) => s.(assignee := Some(user))
    case Assign(None, _) =>
      s.(assignee := None,
         status := if s.assignee.Some? && s.status in {InProgress, PendingCustomer} then Open else s.status)
    case ChangePriority(priority, _) => s.(priority := priority)
    case UpdateDetails(subject, description) =>
      s.(subject := Given(subject, s.subject), description := Given(description, s.description))
    case AddComment(_, _) => s
  }

  /** All requests that got through, one after the other. */
  function Asked(t: Ticket, ops: seq<Op>): Settings {
    if ops == [] then SettingsOf(t.row)
    else
      var init, last := ops[..|ops| - 1], ops[|ops| - 1];
      if Apply(Run(t, init), last).Ok? then Ask(Asked(t, init), last.actor, last.command) else Asked(t, init)
  }

  lemma CallSetsWhatWasAsked(t: Ticket, op: Op)
    requires Apply(t, op).Ok?
    ensures SettingsOf(Commit(t, op).row) == Ask(SettingsOf(t.row), op.actor, op.command)
  {
    match op.command
    case ChangeStatus(_, _) => StatusChange(t, op);
    case Assign(Some(_), _) => Assignment(t, op);
    case Assign(None, _) => Release(t, op);
    case ChangePriority(_, _) => Reclassification(t, op);
    case UpdateDetails(_, _) => Rewording(t, op);
    case AddComment(_, _) => Remark(t, op);
  }

  /** After any run the row holds exactly what the requests that got through have asked for, in their order. */
  lemma {:induction false} RowHoldsWhatWasAsked(t: Ticket, ops: seq<Op>)
    ensures SettingsOf(Run(t, ops).row) == Asked(t, ops)
  {
    if ops != [] {
      var init, last := ops[..|ops| - 1], ops[|ops| - 1];
      RowHoldsWhatWasAsked(t, init);
      if Apply(Run(t, init), last).Ok? {
        CallSetsWhatWasAsked(Run(t, init), last);
      }
    }
  }

  // ---- owners, over runs

  /** The call made the user owner: an assignment to them, or their own move of a free ticket to IN_PROGRESS. */
  predicate MakesOwner(row: Row, op: Op, owner: User) {
    || (op.command.Assign? && op.command.assignee == Some(owner))
    || (op.command.ChangeStatus? && op.command.target == InProgress && op.actor == owner && row.assignee == None)
  }

  lemma OwnerChanges(t: Ticket, op: Op, owner: User)
    requires t.row.assignee != Some(owner) && Commit(t, op).row.assignee == Some(owner)
    ensures Apply(t, op).Ok? && MakesOwner(t.row, op, owner)
  {
    CallSetsWhatWasAsked(t, op);
  }

  lemma LastTimeNotOwned(t: Ticket, ops: seq<Op>, owner: User) returns (k: nat)
    requires !OwnedAt(t, ops, 0, owner) && OwnedAt(t, ops, |ops|, owner)
    ensures k < |ops| && !OwnedAt(t, ops, k, owner)
    ensures forall m | k < m <= |ops| :: OwnedAt(t, ops, m, owner)
  {
    var lacks := (m: nat) => m <= |ops| && !OwnedAt(t, ops, m, owner);
    k := LastBefore(lacks, 0, |ops|);
    forall m | k < m <= |ops|
      ensures OwnedAt(t, ops, m, owner)
    {
      assert !lacks(m);
    }
  }

  /** Who owns a ticket was made its owner by the last call that set one: assigned, or by picking it up. */
  lemma OwnersAreMadeByClaims(t: Ticket, ops: seq<Op>, owner: User) returns (k: nat)
    requires !OwnedAt(t, ops, 0, owner) && OwnedAt(t, ops, |ops|, owner)
    ensures k < |ops| && Apply(Run(t, ops[..k]), ops[k]).Ok? && MakesOwner(Run(t, ops[..k]).row, ops[k], owner)
    ensures forall m | k < m <= |ops| :: OwnedAt(t, ops, m, owner)
  {
    k := LastTimeNotOwned(t, ops, owner);
    RunNext(t, ops, k);
    assert OwnedAt(t, ops, k + 1, owner);
    OwnerChanges(Run(t, ops[..k]), ops[k], owner);
  }

  // ---- comments, over runs

  /** The comments the successful requests of a run have asked to be stored. */
  function Remarks(t: Ticket, ops: seq<Op>): seq<Comment> {
    if ops == [] then []
    else
      var init, last := ops[..|ops| - 1], ops[|ops| - 1];
      Remarks(t, init) +
      if Apply(Run(t, init), last).Ok? && last.command.AddComment?
      then [Comment(last.w[0], last.actor, Strip(last.command.body), last.command.isInternal)] else []
  }

  lemma OtherCallsAddNoComment(t: Ticket, op: Op)
    requires !op.command.AddComment?
    ensures Commit(t, op).comments == t.comments
  {
  }

  /** The comments of a ticket are those that were made, each with its text, author and visibility, for good. */
  lemma {:induction false} CommentsAreTheRemarks(t: Ticket, ops: seq<Op>)
    ensures Run(t, ops).comments == t.comments + Remarks(t, ops)
  {
    if ops == [] {
      NothingAppended(t);
    } else {
      var init, last := ops[..|ops| - 1], ops[|ops| - 1];
      CommentsAreTheRemarks(t, init);
      if Apply(Run(t, init), last).Ok? && last.command.AddComment? {
        Remark(Run(t, init), last);
      } else if !last.command.AddComment? {
        OtherCallsAddNoComment(Run(t, init), last);
      }
    }
  }

  // ---- the kinds of events, over runs

  /** The kind of an event says which column it speaks about, and only comments link a comment. */
  predicate KindFits(e: Event) {
    && (e.kind == StatusChanged || e.kind == Created <==> e.field == StatusField)
    && (e.kind == Assigned || e.kind == Unassigned <==> e.field == AssigneeField)
    && (e.kind == PriorityChanged <==> e.field == PriorityField)
    && (e.kind == DetailsUpdated <==> e.field == SubjectField || e.field == DescriptionField)
    && (e.kind == CommentAdded <==> e.comment.Some?)
    && (e.kind == CommentAdded <==> e.field == NoField)
  }

  /** The log begins with the one CREATED event, and every kind fits. */
  predicate WellKept(es: seq<Event>) {
    && es != []
    && forall k | 0 <= k < |es| :: KindFits(es[k]) && (es[k].kind == Created <==> k == 0)
  }

  /** Events a call may append. */
  predicate Fitting(es: seq<Event>) { forall k | 0 <= k < |es| :: KindFits(es[k]) && es[k].kind != Created }

  lemma EditsFit(row: Row, op: Op)
    requires op.command.UpdateDetails?
    ensures Fitting(EventsFor(row, op))
  {
    var edits := Edits(row, op.command.subject, op.command.description);
    assert forall k | 0 <= k < |edits| :: edits[k].field == SubjectField || edits[k].field == DescriptionField;
  }

  lemma EventsFit(row: Row, op: Op)
    requires !op.command.UpdateDetails?
    ensures Fitting(EventsFor(row, op))
  {
  }

  lemma EventsOfCallFit(t: Ticket, op: Op) returns (more: seq<Event>)
    requires Apply(t, op).Ok?
    ensures Commit(t, op).events == t.events + more && Fitting(more)
  {
    more := EventsFor(t.row, op);
    if op.command.UpdateDetails? { EditsFit(t.row, op); } else { EventsFit(t.row, op); }
  }

  lemma CallKeepsLog(t: Ticket, op: Op)
    requires WellKept(t.events)
    ensures WellKept(Commit(t, op).events)
  {
    if Apply(t, op).Ok? {
      var more := EventsOfCallFit(t, op);
    }
  }

  lemma NewLogIsWellKept(i: Intake, w: Readings)
    ensures WellKept(NewTicket(i, w).events)
  {
    CreationIsLogged(i, w);
  }

  lemma {:induction false} LogIsWellKept(i: Intake, w: Readings, ops: seq<Op>)
    ensures WellKept(Run(NewTicket(i, w), ops).events)
  {
    if ops == [] {
      NewLogIsWellKept(i, w);
    } else {
      LogIsWellKept(i, w, ops[..|ops| - 1]);
      CallKeepsLog(Run(NewTicket(i, w), ops[..|ops| - 1]), ops[|ops| - 1]);
    }
  }

  // ---- intake

  /** Names are cut to the width of their column. */
  predicate FitsColumn(stored: string, given: string) {
    if |given| <= 150 then stored == given else |stored| == 150 && stored <= given
  }

  /** What a new ticket holds: what was submitted, cleaned, and nothing a member of staff has yet to do. */
  lemma Creation(i: Intake, w: Readings)
    ensures var row := NewTicket(i, w).row;
      && row.subject == Strip(i.subject) && row.description == Strip(i.description)
      && row.reportedPriority == i.reportedPriority
      && row.priority == (if i.priority == None then i.reportedPriority else i.priority.value)
      && row.customer == i.customer && row.createdBy == i.actor && row.dedupeHash == i.dedupeHash
      && FitsColumn(row.reportedByName, Strip(i.customerName))
      && row.status == Open && row.assignee == None && row.version == 1
      && row.firstAssignedAt == None && row.resolvedAt == None && row.closedAt == None
      && row.createdAt == w[3].at && row.updatedAt == w[4].at && row.lastActivityAt == w[2].at
    ensures NewTicket(i, w).comments == []
  {
  }

  lemma CreationIsLogged(i: Intake, w: Readings)
    ensures
      var t := NewTicket(i, w);
      var note := if i.actor == None then "Created through the public form." else "Created by an agent.";
      var created := Event(w[5], i.actor, Created, StatusField, "", StatusText(Open), note, None);
      var classified := Event(w[6], i.actor, PriorityChanged, PriorityField, PriorityText(i.reportedPriority),
                              PriorityText(t.row.priority), "Classified at intake.", None);
      t.events == if t.row.priority == i.reportedPriority then [created] else [created, classified]
  {
  }
}
