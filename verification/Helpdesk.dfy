/**
 * The service as the source writes it (apps/tickets/services.py): methods that fetch an object under the lock,
 * change it field by field, append to the tables and store the named columns. Each is proved to leave the tables,
 * and to answer, as the functions of Workflow and the relation of Desk say.
 */
module Helpdesk {
  import opened Wrappers
  import opened Vocabulary
  import opened Records
  import opened Text
  import opened Workflow
  import opened Runs
  import opened Effects
  import opened Transaction
  import opened Fingerprint
  import opened SerialService
  import D = Desk

  // ---- tables as grouped by ticket

  /** The rows of an append-only table that point at a ticket, in insertion order. */
  function Of<T>(table: seq<(string, T)>, ref: string): seq<T> {
    if table == [] then []
    else
      var last := table[|table| - 1];
      Of(table[..|table| - 1], ref) + (if last.0 == ref then [last.1] else [])
  }

  function Tagged<T>(ref: string, items: seq<T>): seq<(string, T)> {
    seq(|items|, i requires 0 <= i < |items| => (ref, items[i]))
  }

  function ViewOf(rows: map<string, Row>, events: seq<(string, Event)>, comments: seq<(string, Comment)>): Tables {
    map ref | ref in rows :: Ticket(rows[ref], Of(events, ref), Of(comments, ref))
  }

  lemma {:induction false} OfConcat<T>(a: seq<(string, T)>, b: seq<(string, T)>, ref: string)
    ensures Of(a + b, ref) == Of(a, ref) + Of(b, ref)
  {
    if b == [] {
      assert a + b == a;
    } else {
      assert (a + b)[..|a + b| - 1] == a + b[..|b| - 1];
      OfConcat(a, b[..|b| - 1], ref);
    }
  }

  lemma {:induction false} OfTagged<T>(ref: string, items: seq<T>, other: string)
    ensures Of(Tagged(ref, items), other) == if other == ref then items else []
  {
    if items != [] {
      assert Tagged(ref, items)[..|items| - 1] == Tagged(ref, items[..|items| - 1]);
      OfTagged(ref, items[..|items| - 1], other);
    }
  }

  lemma OfAppended<T>(table: seq<(string, T)>, ref: string, items: seq<T>)
    ensures forall other ::
      Of(table + Tagged(ref, items), other) == Of(table, other) + (if other == ref then items else [])
  {
    forall other
      ensures Of(table + Tagged(ref, items), other) == Of(table, other) + (if other == ref then items else [])
    {
      OfConcat(table, Tagged(ref, items), other);
      OfTagged(ref, items, other);
    }
  }

  /** Storing one row and appending rows that point at it changes that ticket and no other. */
  lemma ViewChangesOneTicket(
    rows: map<string, Row>, events: seq<(string, Event)>, comments: seq<(string, Comment)>,
    ref: string, row: Row, es: seq<Event>, cs: seq<Comment>)
    ensures ViewOf(rows[ref := row], events + Tagged(ref, es), comments + Tagged(ref, cs)) ==
      ViewOf(rows, events, comments)[ref := Ticket(row, Of(events, ref) + es, Of(comments, ref) + cs)]
  {
    OfAppended(events, ref, es);
    OfAppended(comments, ref, cs);
    var a := ViewOf(rows[ref := row], events + Tagged(ref, es), comments + Tagged(ref, cs));
    var b := ViewOf(rows, events, comments)[ref := Ticket(row, Of(events, ref) + es, Of(comments, ref) + cs)];
    assert a.Keys == b.Keys;
    forall other | other in a
      ensures a[other] == b[other]
    {
    }
  }

  /** Foreign keys: every row of the table points at a stored ticket. */
  predicate PointInto<T>(table: seq<(string, T)>, rows: map<string, Row>) {
    forall i | 0 <= i < |table| :: table[i].0 in rows
  }

  lemma {:induction false} NothingPointsAtNew<T>(table: seq<(string, T)>, rows: map<string, Row>, ref: string)
    requires PointInto(table, rows) && ref !in rows
    ensures Of(table, ref) == []
  {
    if table != [] {
      NothingPointsAtNew(table[..|table| - 1], rows, ref);
    }
  }

  /** The object before `_save` in a status change: it may be stored, and storing it is the call. */
  lemma StatusRowMeetsConstraints(row: Row, op: Op, owned: Row)
    requires op.command.ChangeStatus? && Refusal(row, op) == None && MeetsConstraints(row)
    requires owned == if PicksUp(row, op.command.target) then WithAssignee(row, op.actor, op.w[0].at) else row
    ensures MeetsConstraints(WithStatus(owned, op.command.target, op.w[2].at))
    ensures RowAfter(row, op) == Saved(WithStatus(owned, op.command.target, op.w[2].at), op.w)
  {
    CallsMeetConstraints(row, op);
  }

  /** What the lock and the guards refuse. */
  function RefusedAt(rows: map<string, Row>, ref: string, expected: Option<int>): Option<Error> {
    if ref !in rows then Some(NotFound) else EntryRefusal(rows[ref], expected)
  }

  /** The object the source loads and mutates. */
  class TicketObject {
    const origin: Row
    var subject: string
    var description: string
    var priority: Priority
    var status: Status
    var assignee: Option<User>
    var version: nat
    var updatedAt: nat
    var lastActivityAt: nat
    var firstAssignedAt: Option<nat>
    var resolvedAt: Option<nat>
    var closedAt: Option<nat>

    constructor (row: Row)
      ensures AsRow() == row
    {
      origin := row;
      subject, description, priority := row.subject, row.description, row.priority;
      status, assignee, version := row.status, row.assignee, row.version;
      updatedAt, lastActivityAt := row.updatedAt, row.lastActivityAt;
      firstAssignedAt, resolvedAt, closedAt := row.firstAssignedAt, row.resolvedAt, row.closedAt;
    }

    function AsRow(): Row
      reads this
    {
      origin.(
        subject := subject, description := description, priority := priority, status := status,
        assignee := assignee, version := version, updatedAt := updatedAt, lastActivityAt := lastActivityAt,
        firstAssignedAt := firstAssignedAt, resolvedAt := resolvedAt, closedAt := closedAt)
    }

    /** The comparisons of `update_details`, against the texts as they are. */
    method ApplyText(newSubject: Option<string>, newDescription: Option<string>)
      returns (changes: seq<Edit>, columns: set<Column>)
      modifies this`subject, this`description
      ensures AsRow() == WithText(old(AsRow()), newSubject, newDescription)
      ensures changes == Edits(old(AsRow()), newSubject, newDescription)
      ensures columns <= {SubjectColumn, DescriptionColumn}
      ensures SubjectColumn !in columns ==> subject == old(subject)
      ensures DescriptionColumn !in columns ==> description == old(description)
    {
      changes, columns := [], {};
      if newSubject.Some? && Strip(newSubject.value) != subject {
        changes := changes + [Edit(SubjectField, subject, Strip(newSubject.value))];
        columns := columns + {SubjectColumn};
        subject := Strip(newSubject.value);
      }
      if newDescription.Some? && Strip(newDescription.value) != description {
        changes := changes + [Edit(DescriptionField, description, Strip(newDescription.value))];
        columns := columns + {DescriptionColumn};
        description := Strip(newDescription.value);
      }
    }

    /** `_apply_status_timestamps`; the columns it names cover what it changes. */
    method ApplyStatusTimestamps(newStatus: Status, now: nat) returns (changed: set<Column>)
      modifies this`resolvedAt, this`closedAt
      ensures AsRow() == WithStatus(old(AsRow()), newStatus, now).(status := status)
      ensures changed <= {ResolvedAtColumn, ClosedAtColumn}
      ensures ResolvedAtColumn !in changed ==> resolvedAt == old(resolvedAt)
      ensures ClosedAtColumn !in changed ==> closedAt == old(closedAt)
    {
      changed := {};
      if newStatus == Resolved {
        resolvedAt := Some(now);
        changed := changed + {ResolvedAtColumn};
      } else if newStatus == Closed {
        closedAt := Some(now);
        changed := changed + {ClosedAtColumn};
      } else if resolvedAt.Some? {
        resolvedAt := None;
        changed := changed + {ResolvedAtColumn};
      }
    }
  }

  class TicketService {
    const cfg: Config
    var rows: map<string, Row>
    var events: seq<(string, Event)>
    var comments: seq<(string, Comment)>
    var customers: map<string, string>
    var grants: map<string, seq<nat>>

    /** The database holds no row that fails a check constraint or a foreign key. */
    predicate Valid()
      reads this
    {
      && (forall r | r in rows :: MeetsConstraints(rows[r]))
      && PointInto(events, rows) && PointInto(comments, rows)
    }

    function View(): Tables
      reads this
    {
      ViewOf(rows, events, comments)
    }

    function TheDesk(): D.Desk
      reads this
    {
      D.Desk(View(), customers, grants)
    }

    constructor (cfg: Config)
      ensures Valid() && TheDesk() == D.EMPTY_DESK && this.cfg == cfg
    {
      this.cfg := cfg;
      rows, events, comments, customers, grants := map[], [], [], map[], map[];
    }

    // ---- internals

    /** `_lock`: the row as committed, as an object of its own. */
    method LockRow(ref: string) returns (r: Answer<TicketObject>)
      ensures r == Err(NotFound) || (r.Ok? && fresh(r.value))
      ensures r.Ok? <==> ref in rows
      ensures r.Ok? ==> r.value.AsRow() == rows[ref]
    {
      if ref !in rows {
        return Err(NotFound);
      }
      var ticket := new TicketObject(rows[ref]);
      return Ok(ticket);
    }

    method AssertWritable(ticket: TicketObject) returns (r: Answer<()>)
      ensures r == if IsTerminal(ticket.status) then Err(TicketClosed(ticket.status, [])) else Ok(())
    {
      r := if IsTerminal(ticket.status) then Err(TicketClosed(ticket.status, [])) else Ok(());
    }

    method AssertVersion(ticket: TicketObject, expected: Option<int>) returns (r: Answer<()>)
      ensures r == if expected.Some? && expected.value != ticket.version
                   then Err(VersionConflict(expected.value, ticket.version)) else Ok(())
    {
      if expected == None {
        return Ok(());
      }
      r := if ticket.version != expected.value then Err(VersionConflict(expected.value, ticket.version)) else Ok(());
    }

    /** `_record` */
    method Record(ref: string, e: Event)
      modifies this`events
      ensures events == old(events) + [(ref, e)]
    {
      events := events + [(ref, e)];
    }

    /** `UPDATE` of the named columns: the database refuses a row that fails a check constraint. */
    method Update(ref: string, ticket: TicketObject, columns: set<Column>) returns (ok: bool)
      requires ref in rows
      modifies this`rows
      ensures ok <==> MeetsConstraints(Merge(old(rows)[ref], ticket.AsRow(), columns))
      ensures rows == if ok then old(rows)[ref := Merge(old(rows)[ref], ticket.AsRow(), columns)] else old(rows)
      ensures (forall r | r in old(rows) :: MeetsConstraints(old(rows)[r])) ==>
        forall r | r in rows :: MeetsConstraints(rows[r])
    {
      var row := Merge(rows[ref], ticket.AsRow(), columns);
      ok := MeetsConstraints(row);
      if ok {
        rows := rows[ref := row];
      }
    }

    /** `_save` */
    method Save(ref: string, ticket: TicketObject, changed: set<Column>, w: Readings)
      requires ref in rows && Merge(rows[ref], ticket.AsRow(), changed) == ticket.AsRow()
      requires MeetsConstraints(ticket.AsRow())
      modifies this`rows, ticket`version, ticket`updatedAt, ticket`lastActivityAt
      ensures ticket.AsRow() == Saved(old(ticket.AsRow()), w)
      ensures rows == old(rows)[ref := ticket.AsRow()]
    {
      ticket.version := ticket.version + 1;
      ticket.lastActivityAt := w[3].at;
      ticket.updatedAt := w[4].at;
      var ok := Update(ref, ticket, changed + {VersionColumn, UpdatedAtColumn, LastActivityAtColumn});
      assert ok;
    }

    /** `_apply_assignment` */
    method ApplyAssignment(ref: string, ticket: TicketObject, actor: User, assignee: User, note: string, w: Readings)
      returns (changed: set<Column>)
      modifies this`events, ticket`assignee, ticket`firstAssignedAt
      ensures ticket.AsRow() == WithAssignee(old(ticket.AsRow()), assignee, w[0].at)
      ensures events == old(events) + [(ref, AssignedEvent(w[1], actor, old(ticket.assignee), assignee, note))]
      ensures AssigneeColumn in changed && changed <= {AssigneeColumn, FirstAssignedAtColumn}
      ensures FirstAssignedAtColumn !in changed ==> ticket.firstAssignedAt == old(ticket.firstAssignedAt)
    {
      var previous := ticket.assignee;
      ticket.assignee := Some(assignee);
      changed := {AssigneeColumn};
      if ticket.firstAssignedAt == None {
        ticket.firstAssignedAt := Some(w[0].at);
        changed := changed + {FirstAssignedAtColumn};
      }
      Record(ref, AssignedEvent(w[1], actor, previous, assignee, note));
    }

    /** The opening lines of every mutator: lock, then refuse a closed ticket or a stale version. */
    method Enter(ref: string, expected: Option<int>) returns (r: Answer<TicketObject>)
      ensures if RefusedAt(rows, ref, expected).Some? then r == Err(RefusedAt(rows, ref, expected).value) else r.Ok?
      ensures r.Ok? ==> fresh(r.value) && r.value.AsRow() == rows[ref]
    {
      var ticket :- LockRow(ref);
      var _ :- AssertWritable(ticket);
      var _ :- AssertVersion(ticket, expected);
      return Ok(ticket);
    }

    /** What every mutator promises: tables and answer are those of the atomic call, and nothing else moves. */
    ghost predicate Performed(before: Tables, ref: string, op: Op, r: Answer<TicketObject>)
      reads this, if r.Ok? then {r.value} else {}
    {
      && View() == Stored(before, ref, op)
      && (r.Ok? <==> Serve(before, ref, op).Ok?)
      && (r.Err? ==> Serve(before, ref, op) == Err(r.error))
      && (r.Ok? ==> ref in before && ref in View() && r.value.AsRow() == View()[ref].row
                    && SettingsOf(r.value.AsRow()) == Ask(SettingsOf(before[ref].row), op.actor, op.command))
    }

    /** The tables moved as an admitted call says. */
    ghost predicate Moved(
      rows0: map<string, Row>, events0: seq<(string, Event)>, comments0: seq<(string, Comment)>, ref: string, op: Op)
      reads this
    {
      && ref in rows0 && Refusal(rows0[ref], op) == None
      && rows == rows0[ref := RowAfter(rows0[ref], op)]
      && events == events0 + Tagged(ref, EventsFor(rows0[ref], op))
      && comments == comments0 + Tagged(ref, CommentsFor(op))
    }

    /** Tables that moved as the call says are the tables of the atomic call, and as valid as before. */
    lemma TablesMoved(
      rows0: map<string, Row>, events0: seq<(string, Event)>, comments0: seq<(string, Comment)>, ref: string, op: Op)
      requires Moved(rows0, events0, comments0, ref, op)
      ensures View() == Stored(ViewOf(rows0, events0, comments0), ref, op)
      ensures Serve(ViewOf(rows0, events0, comments0), ref, op).Ok? && ref in View() && View()[ref].row == rows[ref]
      ensures SettingsOf(rows[ref]) == Ask(SettingsOf(rows0[ref]), op.actor, op.command)
      ensures (forall r | r in rows0 :: MeetsConstraints(rows0[r]))
              && PointInto(events0, rows0) && PointInto(comments0, rows0)
              ==> Valid()
    {
      ViewChangesOneTicket(rows0, events0, comments0, ref, rows[ref], EventsFor(rows0[ref], op), CommentsFor(op));
      CallSetsWhatWasAsked(Ticket(rows0[ref], [], []), op);
      if MeetsConstraints(rows0[ref]) {
        CallsMeetConstraints(rows0[ref], op);
      }
    }

    lemma TablesStill(ref: string, op: Op)
      requires ref in rows && Refusal(rows[ref], op) == None && IsNoOp(rows[ref], op)
      ensures View() == Stored(View(), ref, op) && Serve(View(), ref, op).Ok?
      ensures SettingsOf(rows[ref]) == Ask(SettingsOf(rows[ref]), op.actor, op.command)
    {
      assert events + Tagged(ref, []) == events && comments + Tagged(ref, []) == comments;
      TablesMoved(rows, events, comments, ref, op);
    }

    lemma EntryRefused(ref: string, op: Op)
      ensures var e := RefusedAt(rows, ref, op.expected);
        e.Some? ==> Serve(View(), ref, op) == Err(e.value) && Stored(View(), ref, op) == View()
      ensures RefusedAt(rows, ref, op.expected) == None ==>
        ref in rows && (Refusal(rows[ref], op).Some? ==>
          Serve(View(), ref, op) == Err(Refusal(rows[ref], op).value) && Stored(View(), ref, op) == View())
    {
    }

    // ---- mutators

    method ChangeStatus(ref: string, actor: User, newStatus: Status, note: string, expected: Option<int>, w: Readings)
      returns (r: Answer<TicketObject>)
      requires Valid()
      modifies this`rows, this`events
      ensures Valid() && (r.Ok? ==> fresh(r.value))
      ensures Performed(old(View()), ref, Op(actor, Command.ChangeStatus(newStatus, note), expected, w), r)
    {
      ghost var op := Op(actor, Command.ChangeStatus(newStatus, note), expected, w);
      ghost var rows0, events0, comments0 := rows, events, comments;
      EntryRefused(ref, op);
      var ticket :- Enter(ref, expected);
      if !IsTransitionAllowed(ticket.status, newStatus) {
        return Err(InvalidTransition(ticket.status, newStatus, AllowedFrom(ticket.status)));
      }
      MoveStatus(ref, ticket, actor, newStatus, note, w, op);
      TablesMoved(rows0, events0, comments0, ref, op);
      return Ok(ticket);
    }

    /** The automatic pick-up: a ticket that needs an owner and has none gets the actor. */
    method PickUp(ref: string, ticket: TicketObject, actor: User, newStatus: Status, w: Readings)
      returns (changed: set<Column>)
      modifies this`events, ticket`assignee, ticket`firstAssignedAt
      ensures ticket.AsRow() ==
        if PicksUp(old(ticket.AsRow()), newStatus)
        then WithAssignee(old(ticket.AsRow()), actor, w[0].at) else old(ticket.AsRow())
      ensures events == old(events) +
        if PicksUp(old(ticket.AsRow()), newStatus)
        then [(ref, AssignedEvent(w[1], actor, None, actor, PICKED_UP))] else []
      ensures changed <= {AssigneeColumn, FirstAssignedAtColumn}
      ensures AssigneeColumn !in changed ==> ticket.assignee == old(ticket.assignee)
      ensures FirstAssignedAtColumn !in changed ==> ticket.firstAssignedAt == old(ticket.firstAssignedAt)
    {
      changed := {};
      if RequiresAssignee(newStatus) && ticket.assignee == None {
        changed := ApplyAssignment(ref, ticket, actor, actor, PICKED_UP, w);
      }
    }

    /** The writes of `change_status`. */
    method MoveStatus(
      ref: string, ticket: TicketObject, actor: User, newStatus: Status, note: string, w: Readings, ghost op: Op)
      requires ref in rows && ticket.AsRow() == rows[ref]
      requires Refusal(rows[ref], op) == None && MeetsConstraints(rows[ref])
      requires op.actor == actor && op.w == w && op.command == Command.ChangeStatus(newStatus, note)
      modifies this`rows, this`events, ticket
      ensures Moved(old(rows), old(events), comments, ref, op) && ticket.AsRow() == rows[ref]
    {
      ghost var row0, events0 := rows[ref], events;
      var changed := {StatusColumn};
      var more := PickUp(ref, ticket, actor, newStatus, w);
      changed := changed + more;
      ghost var owned := ticket.AsRow();
      var previousStatus := ticket.status;
      ticket.status := newStatus;
      var stamped := ticket.ApplyStatusTimestamps(newStatus, w[2].at);
      changed := changed + stamped;
      assert ticket.AsRow() == WithStatus(owned, newStatus, w[2].at);
      StatusRowMeetsConstraints(row0, op, owned);
      Save(ref, ticket, changed, w);
      Record(ref, StatusEvent(w[5], actor, previousStatus, newStatus, note));
      assert comments == comments + Tagged(ref, []);
    }

    method Assign(ref: string, actor: User, assignee: Option<User>, note: string, expected: Option<int>, w: Readings)
      returns (r: Answer<TicketObject>)
      requires Valid()
      modifies this`rows, this`events
      ensures Valid() && (r.Ok? ==> fresh(r.value))
      ensures Performed(old(View()), ref, Op(actor, Command.Assign(assignee, note), expected, w), r)
    {
      ghost var op := Op(actor, Command.Assign(assignee, note), expected, w);
      ghost var rows0, events0, comments0 := rows, events, comments;
      EntryRefused(ref, op);
      var ticket :- Enter(ref, expected);
      if ticket.assignee == assignee {
        TablesStill(ref, op);
        return Ok(ticket);
      }
      if assignee.Some? {
        var changed := ApplyAssignment(ref, ticket, actor, assignee.value, note, w);
        Save(ref, ticket, changed, w);
        assert comments == comments0 + Tagged(ref, []);
      } else {
        Release(ref, ticket, actor, note, w, op);
      }
      TablesMoved(rows0, events0, comments0, ref, op);
      return Ok(ticket);
    }

    /** The writes of `assign` without an assignee. */
    method Release(ref: string, ticket: TicketObject, actor: User, note: string, w: Readings, ghost op: Op)
      requires ref in rows && ticket.AsRow() == rows[ref]
      requires Refusal(rows[ref], op) == None && MeetsConstraints(rows[ref])
      requires op.actor == actor && op.w == w && op.command == Command.Assign(None, note) && ticket.assignee.Some?
      modifies this`rows, this`events, ticket
      ensures Moved(old(rows), old(events), comments, ref, op) && ticket.AsRow() == rows[ref]
    {
      var previous := ticket.assignee;
      ticket.assignee := None;
      var changed := {AssigneeColumn};
      Record(ref, Event(w[0], Some(actor), Unassigned, AssigneeField, OwnerName(previous), "", note, None));
      if ReturnedOnRelease(ticket.status) {
        var previousStatus := ticket.status;
        ticket.status := Open;
        changed := changed + {StatusColumn};
        Record(ref, StatusEvent(w[1], actor, previousStatus, Open, RETURNED));
      }
      Save(ref, ticket, changed, w);
      assert comments == comments + Tagged(ref, []);
    }

    method ChangePriority(
      ref: string, actor: User, newPriority: Priority, note: string, expected: Option<int>, w: Readings)
      returns (r: Answer<TicketObject>)
      requires Valid()
      modifies this`rows, this`events
      ensures Valid() && (r.Ok? ==> fresh(r.value))
      ensures Performed(old(View()), ref, Op(actor, Command.ChangePriority(newPriority, note), expected, w), r)
    {
      ghost var op := Op(actor, Command.ChangePriority(newPriority, note), expected, w);
      ghost var rows0, events0, comments0 := rows, events, comments;
      EntryRefused(ref, op);
      var ticket :- Enter(ref, expected);
      if ticket.priority == newPriority {
        TablesStill(ref, op);
        return Ok(ticket);
      }
      var previous := ticket.priority;
      ticket.priority := newPriority;
      Save(ref, ticket, {PriorityColumn}, w);
      Record(ref, Event(w[5], Some(actor), PriorityChanged, PriorityField,
                        PriorityText(previous), PriorityText(newPriority), note, None));
      assert comments == comments0 + Tagged(ref, []);
      TablesMoved(rows0, events0, comments0, ref, op);
      return Ok(ticket);
    }

    method UpdateDetails(
      ref: string, actor: User, subject: Option<string>, description: Option<string>, expected: Option<int>,
      w: Readings)
      returns (r: Answer<TicketObject>)
      requires Valid()
      modifies this`rows, this`events
      ensures Valid() && (r.Ok? ==> fresh(r.value))
      ensures Performed(old(View()), ref, Op(actor, Command.UpdateDetails(subject, description), expected, w), r)
    {
      ghost var op := Op(actor, Command.UpdateDetails(subject, description), expected, w);
      ghost var rows0, events0, comments0 := rows, events, comments;
      EntryRefused(ref, op);
      var ticket :- Enter(ref, expected);
      var changes, columns := ticket.ApplyText(subject, description);
      if changes == [] {
        TablesStill(ref, op);
        return Ok(ticket);
      }
      Save(ref, ticket, columns, w);
      RecordEdits(ref, actor, changes, w);
      assert comments == comments0 + Tagged(ref, []);
      TablesMoved(rows0, events0, comments0, ref, op);
      return Ok(ticket);
    }

    /** The loop of `update_details`: one event for each changed text, in order. */
    method RecordEdits(ref: string, actor: User, changes: seq<Edit>, w: Readings)
      requires |changes| <= 2
      modifies this`events
      ensures events == old(events) + Tagged(ref, EditEvents(actor, changes, w))
    {
      var i := 0;
      while i < |changes|
        invariant 0 <= i <= |changes|
        invariant events == old(events) + Tagged(ref, EditEvents(actor, changes, w)[..i])
      {
        Record(ref, EditEvent(w[5 + i], actor, changes[i]));
        i := i + 1;
      }
      assert EditEvents(actor, changes, w)[..i] == EditEvents(actor, changes, w);
    }

    method AddComment(ref: string, actor: User, body: string, isInternal: bool, expected: Option<int>, w: Readings)
      returns (r: Answer<Comment>)
      requires Valid()
      modifies this`rows, this`events, this`comments
      ensures Valid()
      ensures var op := Op(actor, Command.AddComment(body, isInternal), expected, w);
        && View() == Stored(old(View()), ref, op)
        && (r.Ok? <==> Serve(old(View()), ref, op).Ok?)
        && (r.Err? ==> Serve(old(View()), ref, op) == Err(r.error))
        && (r.Ok? ==> r.value == Comment(w[0], actor, Strip(body), isInternal))
        && (r.Ok? ==>
              ref in old(View()) && ref in View() && View()[ref].comments == old(View())[ref].comments + [r.value])
    {
      ghost var op := Op(actor, Command.AddComment(body, isInternal), expected, w);
      ghost var rows0, events0, comments0 := rows, events, comments;
      EntryRefused(ref, op);
      var ticket :- Enter(ref, expected);
      var comment := InsertComment(ref, ticket, actor, body, isInternal, w, op);
      TablesMoved(rows0, events0, comments0, ref, op);
      return Ok(comment);
    }

    /** The writes of `add_comment`: the version is left alone. */
    method InsertComment(
      ref: string, ticket: TicketObject, actor: User, body: string, isInternal: bool, w: Readings, ghost op: Op)
      returns (comment: Comment)
      requires ref in rows && ticket.AsRow() == rows[ref]
      requires Refusal(rows[ref], op) == None && MeetsConstraints(rows[ref])
      requires op.actor == actor && op.w == w && op.command == Command.AddComment(body, isInternal)
      modifies this`rows, this`events, this`comments, ticket
      ensures Moved(old(rows), old(events), old(comments), ref, op) && CommentsFor(op) == [comment]
      ensures comment == Comment(w[0], actor, Strip(body), isInternal)
    {
      comment := Comment(w[0], actor, Strip(body), isInternal);
      comments := comments + [(ref, comment)];
      Record(ref, CommentEvent(w[1], actor, isInternal, comment.stamp.id));
      ticket.lastActivityAt := comment.stamp.at;
      var ok := Update(ref, ticket, {LastActivityAtColumn});
      assert ok;
    }

    // ---- intake

    /** `_find_recent_duplicate`: the newest ticket with the fingerprint that is not older than `since`. */
    method FindRecentDuplicate(fp: string, since: int) returns (r: Option<string>)
      ensures r == None ==> forall ref | ref in View() :: !D.Matches(View(), fp, since, ref)
      ensures r.Some? ==> D.IsRecentDuplicate(View(), fp, since, r.value)
    {
      r := None;
      var rest := rows.Keys;
      while rest != {}
        invariant rest <= rows.Keys
        invariant r == None ==> forall ref | ref in rows && ref !in rest :: !D.Matches(View(), fp, since, ref)
        invariant r.Some? ==> D.Matches(View(), fp, since, r.value)
        invariant r.Some? ==> forall ref | ref in rows && ref !in rest && D.Matches(View(), fp, since, ref) ::
          rows[ref].createdAt <= rows[r.value].createdAt
        decreases rest
      {
        var ref :| ref in rest;
        rest := rest - {ref};
        if rows[ref].dedupeHash == Some(fp) && rows[ref].createdAt >= since {
          if r == None || rows[r.value].createdAt < rows[ref].createdAt {
            r := Some(ref);
          }
        }
      }
    }

    /** One more grant below the limit exceeds it in no window. */
    lemma BudgetSurvives(bucket: string, at: nat)
      requires cfg.limit.Some? && D.Spent(D.GrantsIn(grants, bucket), cfg.period, at) < cfg.limit.value
      ensures D.BudgetsKept(cfg, D.EMPTY_DESK.(grants := grants), at) ==>
        D.BudgetsKept(cfg, D.EMPTY_DESK.(grants := grants[bucket := D.GrantsIn(grants, bucket) + [at]]), at)
    {
      var g := D.GrantsIn(grants, bucket);
      if D.BudgetsKept(cfg, D.EMPTY_DESK.(grants := grants), at) {
        assert D.InBudget(g, cfg.limit.value, cfg.period);
        D.GrantKeepsBudget(g, cfg.limit.value, cfg.period, at);
      }
    }

    /** `enforce_email_rate_limit`: spend one grant of the address's budget, or refuse. */
    method EnforceEmailRateLimit(email: string, at: nat) returns (r: Answer<()>)
      modifies this`grants
      ensures if D.OverBudget(cfg, old(grants), email, at) then r == Err(Throttled) && grants == old(grants)
              else r == Ok(()) && grants == D.Charge(cfg, old(grants), email, at)
      ensures
        var address := NormaliseEmail(cfg, email);
        r.Err? <==>
          && cfg.limit.Some? && address != ""
          && D.Within(D.GrantsIn(old(grants), cfg.hash(address)), at - cfg.period, at) >= cfg.limit.value
      ensures D.BudgetsKept(cfg, D.EMPTY_DESK.(grants := old(grants)), at) ==>
        D.BudgetsKept(cfg, D.EMPTY_DESK.(grants := grants), at)
    {
      var bucket := D.BucketOf(cfg, email);
      if bucket == None || cfg.limit == None {
        return Ok(());
      }
      var spent := D.GrantsIn(grants, bucket.value);
      if D.Spent(spent, cfg.period, at) >= cfg.limit.value {
        return Err(Throttled);
      }
      BudgetSurvives(bucket.value, at);
      grants := grants[bucket.value := spent + [at]];
      return Ok(());
    }

    /** `_resolve_customer` */
    method ResolveCustomer(sub: Submission) returns (email: string)
      modifies this`customers
      ensures email == NormaliseEmail(cfg, sub.customerEmail) && email in customers
      ensures forall other | other in old(customers) && other != email ::
        other in customers && customers[other] == old(customers)[other]
      ensures sub.actor == None && email in old(customers) ==> customers == old(customers)
      ensures customers == D.ResolvedCustomers(cfg, old(customers), sub)
    {
      email := NormaliseEmail(cfg, sub.customerEmail);
      var name := Strip(sub.customerName);
      if email !in customers {
        customers := customers[email := Truncated(name, 150)];
      } else if sub.actor.Some? && name != "" && customers[email] != name {
        customers := customers[email := Truncated(name, 150)];
      }
    }

    /** `Ticket.objects.create` and the first events. */
    method InsertTicket(sub: Submission, email: string, dedupeHash: Option<string>, ref: string, w: Readings)
      requires email == NormaliseEmail(cfg, sub.customerEmail) && dedupeHash == D.IntakeOf(cfg, sub).dedupeHash
      modifies this`rows, this`events
      ensures var t := NewTicket(D.IntakeOf(cfg, sub), w);
        rows == old(rows)[ref := t.row] && events == old(events) + Tagged(ref, t.events)
    {
      var row := Row(
        Strip(sub.subject), Strip(sub.description), sub.reportedPriority,
        if sub.priority.Some? then sub.priority.value else sub.reportedPriority, Open, email,
        Truncated(Strip(sub.customerName), 150), None, sub.actor, 1, dedupeHash,
        w[3].at, w[4].at, w[2].at, None, None, None);
      ghost var t := NewTicket(D.IntakeOf(cfg, sub), w);
      assert row == t.row;
      rows := rows[ref := row];
      Record(ref, Event(
        w[5], sub.actor, Created, StatusField, "", StatusText(Open),
        if sub.actor.Some? then "Created by an agent." else "Created through the public form.", None));
      if row.priority != row.reportedPriority {
        Record(ref, Event(
          w[6], sub.actor, PriorityChanged, PriorityField,
          PriorityText(row.reportedPriority), PriorityText(row.priority),
          "Classified at intake.", None));
      }
      assert events == old(events) + Tagged(ref, t.events);
    }

    /** Tables that moved as a creation says show one ticket more. */
    lemma TicketInserted(rows0: map<string, Row>, events0: seq<(string, Event)>, ref: string, t: Ticket)
      requires ref !in rows0 && PointInto(events0, rows0) && PointInto(comments, rows0)
      requires forall r | r in rows0 :: MeetsConstraints(rows0[r])
      requires t.comments == [] && MeetsConstraints(t.row)
      requires rows == rows0[ref := t.row] && events == events0 + Tagged(ref, t.events)
      ensures Valid() && View() == ViewOf(rows0, events0, comments)[ref := t]
    {
      NothingPointsAtNew(events0, rows0, ref);
      NothingPointsAtNew(comments, rows0, ref);
      ViewChangesOneTicket(rows0, events0, comments, ref, t.row, t.events, []);
      assert comments + Tagged(ref, []) == comments;
      assert [] + t.events == t.events;
      assert Ticket(t.row, [] + t.events, [] + []) == t;
    }

    /** The transaction of `create_ticket`, after the duplicate check and the quota. */
    method Accept(sub: Submission, dedupeHash: Option<string>, ref: string, w: Readings, ghost before: D.Desk)
      requires Valid() && ref !in rows && dedupeHash == D.IntakeOf(cfg, sub).dedupeHash
      requires before.tickets == View() && before.customers == customers
      requires grants == D.Charged(cfg, before, sub, w[1].at)
      requires !D.HasDuplicate(cfg, before, sub, w[0].at) && !D.IsThrottled(cfg, before, sub, w[1].at)
      modifies this`rows, this`events, this`customers
      ensures Valid() && D.Submits(cfg, before, sub, ref, w, TheDesk(), Ok(D.Creation(ref, true)))
    {
      ghost var rows0, events0 := rows, events;
      var email := ResolveCustomer(sub);
      InsertTicket(sub, email, dedupeHash, ref, w);
      NewTicketIsSound(D.IntakeOf(cfg, sub), w);
      TicketInserted(rows0, events0, ref, NewTicket(D.IntakeOf(cfg, sub), w));
    }

    lemma NothingFound(sub: Submission, fp: (string, int), at: nat)
      requires FingerprintOf(cfg, sub) == Some(fp)
      requires forall ref | ref in View() :: !D.Matches(View(), fp.0, at - fp.1, ref)
      ensures !D.HasDuplicate(cfg, TheDesk(), sub, at)
    {
      assert TheDesk().tickets == View();
    }

    /** `create_ticket`; `ref` is the fresh public id of the ticket it may create. */
    method CreateTicket(sub: Submission, ref: string, w: Readings) returns (r: Answer<D.Creation>)
      requires Valid() && ref !in rows
      modifies this`rows, this`events, this`customers, this`grants
      ensures Valid()
      ensures D.Submits(cfg, old(TheDesk()), sub, ref, w, TheDesk(), r)
      ensures r.Ok? && !D.Comparable(sub) ==> r.value == D.Creation(ref, true)
    {
      ghost var before := TheDesk();
      var fp := FingerprintOf(cfg, sub);
      if fp.Some? {
        var duplicate := FindRecentDuplicate(fp.value.0, w[0].at - fp.value.1);
        if duplicate.Some? {
          assert D.HasDuplicate(cfg, before, sub, w[0].at);
          return Ok(D.Creation(duplicate.value, false));
        }
        NothingFound(sub, fp.value, w[0].at);
      }
      assert !D.HasDuplicate(cfg, before, sub, w[0].at);
      if sub.enforceQuota {
        var _ :- EnforceEmailRateLimit(sub.customerEmail, w[1].at);
      }
      Accept(sub, if fp.Some? then Some(fp.value.0) else None, ref, w, before);
      return Ok(D.Creation(ref, true));
    }
  }
}
