/** One call as the small steps its transaction takes after the guards, in the order of the code. */
module Transaction {
  import opened Wrappers
  import opened Vocabulary
  import opened Records
  import opened Text
  import opened Workflow

  /** The columns the service ever names in a partial update. */
  datatype Column =
    | SubjectColumn | DescriptionColumn | PriorityColumn | StatusColumn | AssigneeColumn | VersionColumn
    | UpdatedAtColumn | LastActivityAtColumn | FirstAssignedAtColumn | ResolvedAtColumn | ClosedAtColumn

  /** `UPDATE`: the named columns take the values in memory, all others keep what is stored. */
  function Merge(stored: Row, memory: Row, columns: set<Column>): Row {
    stored.(
      subject := if SubjectColumn in columns then memory.subject else stored.subject,
      description := if DescriptionColumn in columns then memory.description else stored.description,
      priority := if PriorityColumn in columns then memory.priority else stored.priority,
      status := if StatusColumn in columns then memory.status else stored.status,
      assignee := if AssigneeColumn in columns then memory.assignee else stored.assignee,
      version := if VersionColumn in columns then memory.version else stored.version,
      updatedAt := if UpdatedAtColumn in columns then memory.updatedAt else stored.updatedAt,
      lastActivityAt := if LastActivityAtColumn in columns then memory.lastActivityAt else stored.lastActivityAt,
      firstAssignedAt := if FirstAssignedAtColumn in columns then memory.firstAssignedAt else stored.firstAssignedAt,
      resolvedAt := if ResolvedAtColumn in columns then memory.resolvedAt else stored.resolvedAt,
      closedAt := if ClosedAtColumn in columns then memory.closedAt else stored.closedAt)
  }

  /**
   * A transaction under way: the row as it was read under the lock, the object in memory, the names of the
   * columns changed so far, and the ticket's rows as the transaction itself sees them.
   */
  datatype Work = Work(read: Row, memory: Row, changed: set<Column>, view: Ticket)

  function Load(t: Ticket): Work { Work(t.row, t.row, {}, t) }

  function Recorded(u: Work, e: Event): Work { u.(view := u.view.(events := u.view.events + [e])) }

  function Claimed(u: Work, assignee: User, at: nat): Work {
    if u.memory.firstAssignedAt == None
    then u.(memory := u.memory.(assignee := Some(assignee), firstAssignedAt := Some(at)),
            changed := u.changed + {AssigneeColumn, FirstAssignedAtColumn})
    else u.(memory := u.memory.(assignee := Some(assignee)), changed := u.changed + {AssigneeColumn})
  }

  function Turned(u: Work, target: Status, at: nat): Work {
    var v := u.(memory := u.memory.(status := target), changed := u.changed + {StatusColumn});
    if target == Resolved then
      v.(memory := v.memory.(resolvedAt := Some(at)), changed := v.changed + {ResolvedAtColumn})
    else if target == Closed then
      v.(memory := v.memory.(closedAt := Some(at)), changed := v.changed + {ClosedAtColumn})
    else if v.memory.resolvedAt.Some? then
      v.(memory := v.memory.(resolvedAt := None), changed := v.changed + {ResolvedAtColumn})
    else v
  }

  function Edited(u: Work, edits: seq<Edit>): Work
    decreases edits
  {
    if edits == [] then u
    else
      var e, rest := edits[0], edits[1..];
      if e.field == SubjectField
      then Edited(u.(memory := u.memory.(subject := e.after), changed := u.changed + {SubjectColumn}), rest)
      else Edited(u.(memory := u.memory.(description := e.after), changed := u.changed + {DescriptionColumn}), rest)
  }

  function Updated(u: Work, columns: set<Column>): Work {
    u.(view := u.view.(row := Merge(u.view.row, u.memory, columns)))
  }

  /** The `k`-th step of a call that is not a no-op, taken at reading `w[k]`. */
  function Tick(op: Op, k: nat, u: Work): Work {
    var actor, w, row := op.actor, op.w, u.read;
    if k >= 7 || IsNoOp(row, op) then u
    else if k == 3 && !op.command.AddComment? then
      u.(memory := u.memory.(version := u.memory.version + 1, lastActivityAt := w[3].at))
    else if k == 4 && !op.command.AddComment? then
      Updated(u.(memory := u.memory.(updatedAt := w[4].at)),
              u.changed + {VersionColumn, UpdatedAtColumn, LastActivityAtColumn})
    else
      match op.command
      case ChangeStatus(target, note) =>
        if k == 0 && PicksUp(row, target) then Claimed(u, actor, w[0].at)
        else if k == 1 && PicksUp(row, target) then
          Recorded(u, AssignedEvent(w[1], actor, row.assignee, actor, PICKED_UP))
        else if k == 2 then Turned(u, target, w[2].at)
        else if k == 5 then Recorded(u, StatusEvent(w[5], actor, row.status, target, note))
        else u
      case Assign(Some(user), reason) =>
        if k == 0 then Claimed(u, user, w[0].at)
        else if k == 1 then Recorded(u, AssignedEvent(w[1], actor, row.assignee, user, reason))
        else u
      case Assign(None, reason) =>
        if k == 0 then
          Recorded(u.(memory := u.memory.(assignee := None), changed := u.changed + {AssigneeColumn}),
                   Event(w[0], Some(actor), Unassigned, AssigneeField, OwnerName(row.assignee), "", reason, None))
        else if k == 1 && ReturnedOnRelease(row.status) then
          Recorded(u.(memory := u.memory.(status := Open), changed := u.changed + {StatusColumn}),
                   StatusEvent(w[1], actor, row.status, Open, RETURNED))
        else u
      case ChangePriority(priority, remark) =>
        if k == 2 then u.(memory := u.memory.(priority := priority), changed := u.changed + {PriorityColumn})
        else if k == 5 then
          Recorded(u, Event(w[5], Some(actor), PriorityChanged, PriorityField,
                            PriorityText(row.priority), PriorityText(priority), remark, None))
        else u
      case UpdateDetails(subject, description) =>
        var edits := Edits(row, subject, description);
        if k == 2 then Edited(u, edits)
        else if k == 5 then Recorded(u, EditEvent(w[5], actor, edits[0]))
        else if k == 6 && |edits| == 2 then Recorded(u, EditEvent(w[6], actor, edits[1]))
        else u
      case AddComment(body, isInternal) =>
        if k == 0 then
          var comment := Comment(w[0], actor, Strip(body), isInternal);
          u.(view := u.view.(comments := u.view.comments + [comment]))
        else if k == 1 then Recorded(u, CommentEvent(w[1], actor, isInternal, w[0].id))
        else if k == 2 then u.(memory := u.memory.(lastActivityAt := w[0].at))
        else if k == 4 then Updated(u, {LastActivityAtColumn})
        else u
  }

  function Ticks(op: Op, u: Work, k: nat): Work {
    if k == 0 then u else Tick(op, k - 1, Ticks(op, u, k - 1))
  }

  lemma {:induction false} EditedKeepsView(u: Work, edits: seq<Edit>)
    ensures Edited(u, edits).view == u.view && Edited(u, edits).read == u.read
    decreases edits
  {
    if edits != [] {
      var e, rest := edits[0], edits[1..];
      if e.field == SubjectField {
        EditedKeepsView(u.(memory := u.memory.(subject := e.after), changed := u.changed + {SubjectColumn}), rest);
      } else {
        EditedKeepsView(
          u.(memory := u.memory.(description := e.after), changed := u.changed + {DescriptionColumn}), rest);
      }
    }
  }

  /** Editing leaves the new texts in memory, and names exactly the columns that changed. */
  lemma EditedSetsText(u: Work, subject: Option<string>, description: Option<string>)
    requires u.memory == u.read
    ensures var v := Edited(u, Edits(u.read, subject, description));
      && v.memory == WithText(u.read, subject, description)
      && v.changed == u.changed
                      + (if v.memory.subject != u.read.subject then {SubjectColumn} else {})
                      + (if v.memory.description != u.read.description then {DescriptionColumn} else {})
  {
    var edits := Edits(u.read, subject, description);
    if |edits| == 2 {
      var u1 := u.(memory := u.memory.(subject := edits[0].after), changed := u.changed + {SubjectColumn});
      var u2 := u1.(memory := u1.memory.(description := edits[1].after), changed := u1.changed + {DescriptionColumn});
      assert edits[1..] == [edits[1]];
      assert Edited(u, edits) == Edited(u1, [edits[1]]);
      assert [edits[1]][1..] == [];
      assert Edited(u1, [edits[1]]) == Edited(u2, []);
    } else if |edits| == 1 {
      assert edits[1..] == [];
    }
  }

  lemma TicksUnfold(op: Op, u: Work)
    ensures Ticks(op, u, 7) ==
      Tick(op, 6, Tick(op, 5, Tick(op, 4, Tick(op, 3, Tick(op, 2, Tick(op, 1, Tick(op, 0, u)))))))
  {
    assert Ticks(op, u, 1) == Tick(op, 0, u);
    assert Ticks(op, u, 2) == Tick(op, 1, Ticks(op, u, 1));
    assert Ticks(op, u, 3) == Tick(op, 2, Ticks(op, u, 2));
    assert Ticks(op, u, 4) == Tick(op, 3, Ticks(op, u, 3));
    assert Ticks(op, u, 5) == Tick(op, 4, Ticks(op, u, 4));
    assert Ticks(op, u, 6) == Tick(op, 5, Ticks(op, u, 5));
  }

  lemma {:induction false} TicksOfNoOp(op: Op, u: Work, k: nat)
    requires IsNoOp(u.read, op)
    ensures Ticks(op, u, k) == u
  {
    if k > 0 {
      TicksOfNoOp(op, u, k - 1);
    }
  }

  /** The steps, taken to the end, leave the atomic call's rows behind, and the row in memory is the stored row. */
  ghost predicate AddsUp(t: Ticket, op: Op) {
    var u := Ticks(op, Load(t), 7);
    && u.view.row == RowAfter(t.row, op) == u.memory
    && u.view.events == t.events + EventsFor(t.row, op)
    && u.view.comments == t.comments + CommentsFor(op)
  }

  /** The list of changed columns covers every difference between memory and the row as read. */
  predicate Covers(u: Work) { u.view.row == u.read && Merge(u.read, u.memory, u.changed) == u.memory }

  lemma ClaimedCovers(u: Work, assignee: User, at: nat)
    requires Covers(u)
    ensures var v := Claimed(u, assignee, at);
      Covers(v) && v.memory == WithAssignee(u.memory, assignee, at) && v.view == u.view && v.read == u.read
  {
  }

  lemma TurnedCovers(u: Work, target: Status, at: nat)
    requires Covers(u)
    ensures var v := Turned(u, target, at);
      Covers(v) && v.memory == WithStatus(u.memory, target, at) && v.view == u.view && v.read == u.read
  {
  }

  /** The two steps of a save store the row in memory with its bookkeeping, whatever list covers the changes. */
  lemma SaveStoresMemory(op: Op, u: Work)
    requires Covers(u) && !IsNoOp(u.read, op) && !op.command.AddComment?
    ensures var v := Tick(op, 4, Tick(op, 3, u));
      && v.view == u.view.(row := Saved(u.memory, op.w)) && v.memory == Saved(u.memory, op.w) && v.read == u.read
  {
  }

  lemma StatusSteps(t: Ticket, op: Op)
    requires op.command.ChangeStatus? && !IsNoOp(t.row, op)
    ensures AddsUp(t, op)
  {
    var u, w, target := Load(t), op.w, op.command.target;
    TicksUnfold(op, u);
    if PicksUp(t.row, target) {
      ClaimedCovers(u, op.actor, w[0].at);
    }
    var u2 := Tick(op, 1, Tick(op, 0, u));
    assert Covers(u2);
    TurnedCovers(u2, target, w[2].at);
    var u3 := Tick(op, 2, u2);
    SaveStoresMemory(op, u3);
    var u5 := Tick(op, 4, Tick(op, 3, u3));
    assert Ticks(op, u, 7) == Tick(op, 5, u5);
  }

  lemma AssignSteps(t: Ticket, op: Op)
    requires op.command.Assign? && !IsNoOp(t.row, op)
    ensures AddsUp(t, op)
  {
    var u, w := Load(t), op.w;
    TicksUnfold(op, u);
    if op.command.assignee.Some? {
      ClaimedCovers(u, op.command.assignee.value, w[0].at);
    }
    var u2 := Tick(op, 1, Tick(op, 0, u));
    assert Covers(u2);
    assert Tick(op, 2, u2) == u2;
    SaveStoresMemory(op, u2);
    assert Ticks(op, u, 7) == Tick(op, 4, Tick(op, 3, u2));
  }

  lemma PrioritySteps(t: Ticket, op: Op)
    requires op.command.ChangePriority? && !IsNoOp(t.row, op)
    ensures AddsUp(t, op)
  {
    TicksUnfold(op, Load(t));
  }

  /** The last two steps of an edit record one event for each changed text. */
  lemma EditsRecorded(op: Op, u: Work)
    requires op.command.UpdateDetails? && !IsNoOp(u.read, op)
    ensures Tick(op, 6, Tick(op, 5, u)) == u.(view := u.view.(events := u.view.events + EventsFor(u.read, op)))
  {
    var edits := Edits(u.read, op.command.subject, op.command.description);
    var first := EditEvent(op.w[5], op.actor, edits[0]);
    if |edits| == 2 {
      assert EventsFor(u.read, op) == [first] + [EditEvent(op.w[6], op.actor, edits[1])];
    } else {
      assert EventsFor(u.read, op) == [first];
    }
  }

  lemma DetailSteps(t: Ticket, op: Op)
    requires op.command.UpdateDetails? && !IsNoOp(t.row, op)
    ensures AddsUp(t, op)
  {
    var u, subject, description := Load(t), op.command.subject, op.command.description;
    TicksUnfold(op, u);
    EditedSetsText(u, subject, description);
    EditedKeepsView(u, Edits(t.row, subject, description));
    var u3 := Edited(u, Edits(t.row, subject, description));
    assert Tick(op, 2, Tick(op, 1, Tick(op, 0, u))) == u3;
    assert Covers(u3);
    SaveStoresMemory(op, u3);
    EditsRecorded(op, Tick(op, 4, Tick(op, 3, u3)));
  }

  lemma CommentSteps(t: Ticket, op: Op)
    requires op.command.AddComment? && !IsNoOp(t.row, op)
    ensures AddsUp(t, op)
  {
    TicksUnfold(op, Load(t));
  }

  /** The steps of a call that passed the guards add up to the atomic call. */
  lemma StepsAddUp(t: Ticket, op: Op)
    requires Refusal(t.row, op) == None
    ensures Apply(t, op) == Ok(Ticks(op, Load(t), 7).view)
    ensures Ticks(op, Load(t), 7).view.row == Ticks(op, Load(t), 7).memory
  {
    if IsNoOp(t.row, op) {
      TicksOfNoOp(op, Load(t), 7);
      assert t.events + [] == t.events && t.comments + [] == t.comments;
    } else {
      match op.command {
        case ChangeStatus(_, _) => StatusSteps(t, op);
        case Assign(_, _) => AssignSteps(t, op);
        case ChangePriority(_, _) => PrioritySteps(t, op);
        case UpdateDetails(_, _) => DetailSteps(t, op);
        case AddComment(_, _) => CommentSteps(t, op);
      }
    }
  }

  lemma OnlyTheUpdateStores(op: Op, k: nat, u: Work)
    requires k != 4
    ensures Tick(op, k, u).view.row == u.view.row
  {
    if op.command.UpdateDetails? {
      EditedKeepsView(u, Edits(u.read, op.command.subject, op.command.description));
    }
  }

  lemma {:induction false} StoredBefore(op: Op, u: Work, k: nat)
    requires k <= 4
    ensures Ticks(op, u, k).view.row == u.view.row
  {
    if k > 0 {
      StoredBefore(op, u, k - 1);
      OnlyTheUpdateStores(op, k - 1, Ticks(op, u, k - 1));
    }
  }

  lemma {:induction false} StoredAfter(op: Op, u: Work, k: nat)
    requires 5 <= k <= 7
    ensures Ticks(op, u, k).view.row == Ticks(op, u, 7).view.row
    decreases 7 - k
  {
    if k < 7 {
      StoredAfter(op, u, k + 1);
      OnlyTheUpdateStores(op, k, Ticks(op, u, k));
    }
  }

  lemma CallsMeetConstraints(row: Row, op: Op)
    requires Refusal(row, op) == None && MeetsConstraints(row)
    ensures MeetsConstraints(RowAfter(row, op))
  {
  }

  /**
   * A transaction stores a row exactly once, and before and after that single update its own view of the table
   * meets the check constraints: the database has no reason to refuse it.
   */
  lemma EveryUpdateMeetsConstraints(t: Ticket, op: Op, k: nat)
    requires Refusal(t.row, op) == None && MeetsConstraints(t.row) && k <= 7
    ensures MeetsConstraints(Ticks(op, Load(t), k).view.row)
    ensures Ticks(op, Load(t), k).view.row == if k <= 4 then t.row else RowAfter(t.row, op)
  {
    StepsAddUp(t, op);
    CallsMeetConstraints(t.row, op);
    if k <= 4 {
      StoredBefore(op, Load(t), k);
    } else {
      StoredAfter(op, Load(t), k);
    }
  }
}
