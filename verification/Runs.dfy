/** What holds of one ticket over runs of any length: version, status history, and the state invariant. */
module Runs {
  import opened Wrappers
  import opened Vocabulary
  import opened Records
  import opened Text
  import opened Workflow

  // ---- runs and their prefixes

  lemma {:induction false} RunConcat(t: Ticket, a: seq<Op>, b: seq<Op>)
    ensures Run(t, a + b) == Run(Run(t, a), b)
  {
    if b == [] {
      assert a + b == a;
    } else {
      assert (a + b)[..|a + b| - 1] == a + b[..|b| - 1];
      RunConcat(t, a, b[..|b| - 1]);
    }
  }

  lemma RunSplit(t: Ticket, ops: seq<Op>, i: nat, j: nat)
    requires i <= j <= |ops|
    ensures Run(t, ops[..j]) == Run(Run(t, ops[..i]), ops[i..j])
  {
    assert ops[..j] == ops[..i] + ops[i..j];
    RunConcat(t, ops[..i], ops[i..j]);
  }

  lemma RunNext(t: Ticket, ops: seq<Op>, i: nat)
    requires i < |ops|
    ensures Run(t, ops[..i + 1]) == Commit(Run(t, ops[..i]), ops[i])
  {
    assert ops[..i + 1][..i] == ops[..i];
  }

  lemma RunAppend(t: Ticket, ops: seq<Op>, op: Op)
    ensures Run(t, ops + [op]) == Commit(Run(t, ops), op)
  {
    assert (ops + [op])[..|ops|] == ops;
  }

  /** Between a moment at which something holds and a later one at which it does not lies a step that ends it. */
  lemma {:induction false} LastBefore(p: nat -> bool, i: nat, j: nat) returns (k: nat)
    requires i <= j && p(i) && !p(j)
    ensures i <= k < j && p(k) && !p(k + 1) && forall m | k < m <= j :: !p(m)
  {
    if p(j - 1) {
      k := j - 1;
    } else {
      k := LastBefore(p, i, j - 1);
    }
  }

  /** After the first `k` calls the ticket belongs to `owner`. */
  predicate OwnedAt(t: Ticket, ops: seq<Op>, k: nat, owner: User)
    requires k <= |ops|
  {
    Run(t, ops[..k]).row.assignee == Some(owner)
  }

  // ---- the events a predicate selects

  function Select(es: seq<Event>, p: Event -> bool): seq<Event> {
    if es == [] then []
    else Select(es[..|es| - 1], p) + (if p(es[|es| - 1]) then [es[|es| - 1]] else [])
  }

  lemma {:induction false} SelectConcat(a: seq<Event>, b: seq<Event>, p: Event -> bool)
    ensures Select(a + b, p) == Select(a, p) + Select(b, p)
  {
    if b == [] {
      assert a + b == a;
    } else {
      assert (a + b)[..|a + b| - 1] == a + b[..|b| - 1];
      SelectConcat(a, b[..|b| - 1], p);
    }
  }

  lemma {:induction false} SelectNone(es: seq<Event>, p: Event -> bool)
    requires forall i | 0 <= i < |es| :: !p(es[i])
    ensures Select(es, p) == []
  {
    if es != [] {
      SelectNone(es[..|es| - 1], p);
    }
  }

  lemma {:induction false} SelectAll(es: seq<Event>, p: Event -> bool)
    requires forall i | 0 <= i < |es| :: p(es[i])
    ensures Select(es, p) == es
  {
    if es != [] {
      SelectAll(es[..|es| - 1], p);
    }
  }

  predicate IsChange(e: Event) { e.comment == None }

  predicate IsStatusEvent(e: Event) { e.field == StatusField }

  // ---- the state invariant

  /** The facts that concern the row alone. */
  predicate SoundState(row: Row) {
    && (row.status == InProgress || row.status == PendingCustomer ==> row.assignee.Some?)
    && (row.status == Resolved ==> row.resolvedAt.Some?)
    && (row.resolvedAt.Some? ==> row.status == Resolved || row.status == Closed)
    && (row.status == Closed <==> row.closedAt.Some?)
    && (row.assignee.Some? ==> row.firstAssignedAt.Some?)
    && row.version >= 1
  }

  /** The facts a queue relies on; only three of them are database constraints. */
  predicate Sound(t: Ticket) {
    && SoundState(t.row)
    && Tight(t.row.subject, IsSpace) && Tight(t.row.description, IsSpace)
    && (t.row.firstAssignedAt.Some? <==> exists e | e in t.events :: e.kind == Assigned)
  }

  /** What the database itself refuses; a ticket that waits for its customer without an owner it would take. */
  lemma DatabaseRefusesIff(row: Row)
    ensures !MeetsConstraints(row) <==>
      || (row.status == Resolved && row.resolvedAt == None)
      || (row.status == Closed && row.closedAt == None)
      || (row.status == InProgress && row.assignee == None)
    ensures SoundState(row) ==> MeetsConstraints(row)
  {
  }

  lemma NewTicketIsSound(i: Intake, w: Readings)
    ensures Sound(NewTicket(i, w)) && MeetsConstraints(NewTicket(i, w).row)
  {
    TrimIsIdempotent(i.subject, IsSpace);
    TrimIsIdempotent(i.description, IsSpace);
  }

  lemma EventsForKinds(row: Row, op: Op)
    ensures forall e | e in EventsFor(row, op) :: e.kind == Assigned ==>
      (op.command.Assign? && op.command.assignee.Some?)
      || (op.command.ChangeStatus? && PicksUp(row, op.command.target))
    ensures forall e | e in EventsFor(row, op) :: e.actor == Some(op.actor)
  {
  }

  lemma CallsKeepTextTight(row: Row, op: Op)
    requires Tight(row.subject, IsSpace) && Tight(row.description, IsSpace)
    ensures Tight(RowAfter(row, op).subject, IsSpace) && Tight(RowAfter(row, op).description, IsSpace)
  {
    if op.command.UpdateDetails? {
      if op.command.subject.Some? { TrimIsIdempotent(op.command.subject.value, IsSpace); }
      if op.command.description.Some? { TrimIsIdempotent(op.command.description.value, IsSpace); }
    }
  }

  lemma CallsKeepStateSound(row: Row, op: Op)
    requires SoundState(row) && Refusal(row, op) == None
    ensures SoundState(RowAfter(row, op))
  {
    ClosedIsTheOnlyTerminal(row.status);
  }

  /** A call records an assignment exactly when it names an assignee, and then `first_assigned_at` is set. */
  lemma AssignmentsAreRecorded(row: Row, op: Op)
    requires Refusal(row, op) == None
    ensures (exists e | e in EventsFor(row, op) :: e.kind == Assigned) ==> RowAfter(row, op).firstAssignedAt.Some?
    ensures RowAfter(row, op).firstAssignedAt.Some? && row.firstAssignedAt == None ==>
      exists e | e in EventsFor(row, op) :: e.kind == Assigned
    ensures row.firstAssignedAt.Some? ==> RowAfter(row, op).firstAssignedAt.Some?
  {
    EventsForKinds(row, op);
    if RowAfter(row, op).firstAssignedAt.Some? && row.firstAssignedAt == None {
      assert EventsFor(row, op)[0] in EventsFor(row, op);
    }
  }

  lemma CommitKeepsSound(t: Ticket, op: Op)
    requires Sound(t)
    ensures Sound(Commit(t, op))
  {
    if Refusal(t.row, op) == None {
      CallsKeepStateSound(t.row, op);
      CallsKeepTextTight(t.row, op);
      AssignmentsAreRecorded(t.row, op);
      var all := Commit(t, op).events;
      assert forall e | e in t.events :: e in all;
      assert forall e | e in EventsFor(t.row, op) :: e in all;
    }
  }

  lemma {:induction false} RunKeepsSound(t: Ticket, ops: seq<Op>)
    requires Sound(t)
    ensures Sound(Run(t, ops))
  {
    if ops != [] {
      RunKeepsSound(t, ops[..|ops| - 1]);
      CommitKeepsSound(Run(t, ops[..|ops| - 1]), ops[|ops| - 1]);
    }
  }

  /** Every ticket that intake and any sequence of calls can produce is sound. */
  lemma EveryTicketIsSound(i: Intake, w: Readings, ops: seq<Op>)
    ensures Sound(Run(NewTicket(i, w), ops))
    ensures MeetsConstraints(Run(NewTicket(i, w), ops).row)
  {
    NewTicketIsSound(i, w);
    RunKeepsSound(NewTicket(i, w), ops);
  }

  // ---- the version

  /** A call that gets through and changes the state of the ticket. */
  predicate Effective(t: Ticket, op: Op) {
    Refusal(t.row, op) == None && !IsNoOp(t.row, op) && !op.command.AddComment?
  }

  /** The row without its bookkeeping columns. */
  function Content(row: Row): Row { row.(version := 0, updatedAt := 0, lastActivityAt := 0) }

  predicate SameButActivity(a: Row, b: Row) { a.(lastActivityAt := 0) == b.(lastActivityAt := 0) }

  lemma EditsChangeText(row: Row, subject: Option<string>, description: Option<string>)
    ensures Edits(row, subject, description) != [] <==> WithText(row, subject, description) != row
  {
  }

  /** The version moves by exactly one on effective calls, and those are the calls that change content. */
  lemma VersionMovesWithContent(t: Ticket, op: Op)
    ensures Commit(t, op).row.version == t.row.version + (if Effective(t, op) then 1 else 0)
    ensures Effective(t, op) <==> Content(Commit(t, op).row) != Content(t.row)
    ensures !Effective(t, op) ==> SameButActivity(Commit(t, op).row, t.row)
  {
    ClosedIsTheOnlyTerminal(t.row.status);
    if op.command.UpdateDetails? {
      EditsChangeText(t.row, op.command.subject, op.command.description);
    }
  }

  lemma CommitAppends(t: Ticket, op: Op)
    ensures t.events <= Commit(t, op).events && t.comments <= Commit(t, op).comments
    ensures !Effective(t, op) ==> Select(Commit(t, op).events, IsChange) == Select(t.events, IsChange)
  {
    SelectConcat(t.events, EventsFor(t.row, op), IsChange);
    if !Effective(t, op) && Refusal(t.row, op) == None {
      SelectNone(EventsFor(t.row, op), IsChange);
    }
  }

  /** A stable version means stable state: nothing moved but the activity stamp, and only comments came in. */
  lemma {:induction false} VersionNeverFalls(t: Ticket, ops: seq<Op>)
    ensures t.row.version <= Run(t, ops).row.version
    ensures t.events <= Run(t, ops).events && t.comments <= Run(t, ops).comments
    ensures Run(t, ops).row.version == t.row.version ==>
              && SameButActivity(Run(t, ops).row, t.row)
              && Select(Run(t, ops).events, IsChange) == Select(t.events, IsChange)
  {
    if ops != [] {
      var before, op := Run(t, ops[..|ops| - 1]), ops[|ops| - 1];
      VersionNeverFalls(t, ops[..|ops| - 1]);
      VersionMovesWithContent(before, op);
      CommitAppends(before, op);
    }
  }

  /** Version determines state: two moments of one run with equal versions agree on all but the activity stamp. */
  lemma VersionDeterminesState(t: Ticket, ops: seq<Op>, i: nat, j: nat)
    requires i <= j <= |ops|
    ensures var a, b := Run(t, ops[..i]).row, Run(t, ops[..j]).row;
      a.version <= b.version && (a.version == b.version ==> SameButActivity(a, b))
  {
    RunSplit(t, ops, i, j);
    VersionNeverFalls(Run(t, ops[..i]), ops[i..j]);
  }

  /** No lost update: of two calls with the same `If-Match`, once one was effective the later one is refused. */
  lemma NoLostUpdate(t: Ticket, ops: seq<Op>, i: nat, j: nat)
    requires i < j < |ops|
    requires ops[i].expected.Some? && ops[j].expected == ops[i].expected
    requires Effective(Run(t, ops[..i]), ops[i])
    ensures Apply(Run(t, ops[..j]), ops[j]).Err?
  {
    RunNext(t, ops, i);
    VersionMovesWithContent(Run(t, ops[..i]), ops[i]);
    VersionDeterminesState(t, ops, i + 1, j);
  }

  /** A write under `If-Match` lands on exactly the content its client read at an earlier moment of the run. */
  lemma WriteLandsOnWhatWasRead(t: Ticket, ops: seq<Op>, i: nat, j: nat)
    requires i <= j < |ops|
    requires ops[j].expected == Some(Run(t, ops[..i]).row.version)
    requires Apply(Run(t, ops[..j]), ops[j]).Ok?
    ensures SameButActivity(Run(t, ops[..j]).row, Run(t, ops[..i]).row)
    ensures Select(Run(t, ops[..j]).events, IsChange) == Select(Run(t, ops[..i]).events, IsChange)
  {
    RunSplit(t, ops, i, j);
    VersionNeverFalls(Run(t, ops[..i]), ops[i..j]);
  }

  // ---- nothing is written in silence

  /** Every write leaves events, every event stands for a write, and each carries its actor and the caller's reason. */
  lemma NoSilentWrite(t: Ticket, op: Op)
    ensures Commit(t, op) != t <==> |Commit(t, op).events| > |t.events|
    ensures forall e | e in Commit(t, op).events && e !in t.events :: e.actor == Some(op.actor)
    ensures Effective(t, op) && !op.command.UpdateDetails? ==>
      exists e | e in Commit(t, op).events[|t.events|..] :: e.note == ReasonOf(op.command)
  {
    if Refusal(t.row, op) == None {
      var es := EventsFor(t.row, op);
      EventsForKinds(t.row, op);
      assert Commit(t, op).events[|t.events|..] == es;
      if IsNoOp(t.row, op) {
        assert t.events + [] == t.events && t.comments + [] == t.comments;
      } else if Effective(t, op) {
        EventsOfEffectiveCalls(t, op);
        if op.command.ChangeStatus? {
          assert es[|es| - 1] in es;
        } else {
          assert es[0] in es;
        }
      }
    }
  }

  function ReasonOf(command: Command): string {
    match command
    case ChangeStatus(_, note) => note
    case Assign(_, reason) => reason
    case ChangePriority(_, remark) => remark
    case _ => ""
  }

  // ---- version and event accounting

  /** Effective calls that record two events instead of one. */
  predicate RecordsTwice(t: Ticket, op: Op) {
    Effective(t, op) &&
    match op.command
    case ChangeStatus(target, _) => PicksUp(t.row, target)
    case Assign(assignee, _) => assignee == None && ReturnedOnRelease(t.row.status)
    case UpdateDetails(subject, description) =>
      && subject.Some? && Strip(subject.value) != t.row.subject
      && description.Some? && Strip(description.value) != t.row.description
    case _ => false
  }

  function CountWhere(t: Ticket, ops: seq<Op>, p: (Ticket, Op) -> bool): nat {
    if ops == [] then 0
    else
      CountWhere(t, ops[..|ops| - 1], p) + (if p(Run(t, ops[..|ops| - 1]), ops[|ops| - 1]) then 1 else 0)
  }

  function Changes(t: Ticket): nat { |Select(t.events, IsChange)| }

  /** An effective call records one event, or two; all of them are changes. */
  lemma EventsOfEffectiveCalls(t: Ticket, op: Op)
    requires Effective(t, op)
    ensures |EventsFor(t.row, op)| == if RecordsTwice(t, op) then 2 else 1
    ensures forall k | 0 <= k < |EventsFor(t.row, op)| :: IsChange(EventsFor(t.row, op)[k])
  {
  }

  lemma CommitAccounts(t: Ticket, op: Op)
    ensures Changes(Commit(t, op)) ==
      Changes(t) + (if Effective(t, op) then 1 else 0) + (if RecordsTwice(t, op) then 1 else 0)
  {
    if Effective(t, op) {
      EventsOfEffectiveCalls(t, op);
      SelectConcat(t.events, EventsFor(t.row, op), IsChange);
      SelectAll(EventsFor(t.row, op), IsChange);
    } else {
      CommitAppends(t, op);
    }
  }

  /**
   * The version counts the effective calls; the change events exceed it by exactly the pick-ups,
   * the releases that return a ticket to the queue, and the edits of both texts.
   */
  lemma {:induction false} RunAccounts(t: Ticket, ops: seq<Op>)
    ensures Run(t, ops).row.version == t.row.version + CountWhere(t, ops, Effective)
    ensures Changes(Run(t, ops)) == Changes(t) + CountWhere(t, ops, Effective) + CountWhere(t, ops, RecordsTwice)
    ensures CountWhere(t, ops, RecordsTwice) <= CountWhere(t, ops, Effective)
  {
    if ops != [] {
      RunAccounts(t, ops[..|ops| - 1]);
      VersionMovesWithContent(Run(t, ops[..|ops| - 1]), ops[|ops| - 1]);
      CommitAccounts(Run(t, ops[..|ops| - 1]), ops[|ops| - 1]);
    }
  }

  lemma VersionAndEventsAgree(i: Intake, w: Readings, ops: seq<Op>)
    ensures var t0 := NewTicket(i, w);
      var t := Run(t0, ops);
      var recorded := Changes(t) - Changes(t0);
      && t.row.version - 1 <= recorded <= 2 * (t.row.version - 1)
      && recorded - (t.row.version - 1) == CountWhere(t0, ops, RecordsTwice)
  {
    RunAccounts(NewTicket(i, w), ops);
  }

  // ---- the status history

  /** The status events form a path of the table from OPEN to the current status. */
  predicate IsPath(path: seq<Event>, current: Status) {
    && path != []
    && path[0].newValue == StatusText(Open)
    && path[|path| - 1].newValue == StatusText(current)
    && forall i | 0 < i < |path| ::
         && path[i].oldValue == path[i - 1].newValue
         && StatusOf(path[i].oldValue).Some? && StatusOf(path[i].newValue).Some?
         && IsTransitionAllowed(StatusOf(path[i].oldValue).value, StatusOf(path[i].newValue).value)
  }

  predicate OnPath(t: Ticket) { IsPath(Select(t.events, IsStatusEvent), t.row.status) }

  lemma PathExtends(path: seq<Event>, current: Status, e: Event, next: Status)
    requires IsPath(path, current) && IsTransitionAllowed(current, next)
    requires e.oldValue == StatusText(current) && e.newValue == StatusText(next)
    ensures IsPath(path + [e], next)
  {
    TextsAreDistinct(current, next, Low, Low);
    TextsAreDistinct(next, next, Low, Low);
  }

  lemma SelectOnlyLast(head: seq<Event>, e: Event, p: Event -> bool)
    requires p(e) && forall i | 0 <= i < |head| :: !p(head[i])
    ensures Select(head + [e], p) == [e]
  {
    SelectNone(head, p);
    assert (head + [e])[..|head|] == head;
  }

  /** `es` records one status event, from `before` to `after`. */
  predicate RecordsMove(es: seq<Event>, before: Status, after: Status) {
    && |Select(es, IsStatusEvent)| == 1
    && Select(es, IsStatusEvent)[0].oldValue == StatusText(before)
    && Select(es, IsStatusEvent)[0].newValue == StatusText(after)
  }

  lemma StatusEventsOfChange(row: Row, op: Op)
    requires op.command.ChangeStatus?
    ensures RecordsMove(EventsFor(row, op), row.status, op.command.target)
  {
    var e := StatusEvent(op.w[5], op.actor, row.status, op.command.target, op.command.note);
    var pickUp := AssignedEvent(op.w[1], op.actor, row.assignee, op.actor, PICKED_UP);
    if PicksUp(row, op.command.target) {
      SelectOnlyLast([pickUp], e, IsStatusEvent);
    } else {
      SelectOnlyLast([], e, IsStatusEvent);
    }
  }

  lemma StatusEventsOfRelease(row: Row, op: Op)
    requires op.command.Assign? && op.command.assignee == None && row.assignee.Some? && ReturnedOnRelease(row.status)
    ensures RecordsMove(EventsFor(row, op), row.status, Open)
  {
    var e := StatusEvent(op.w[1], op.actor, row.status, Open, RETURNED);
    var es := EventsFor(row, op);
    SelectOnlyLast([es[0]], e, IsStatusEvent);
    assert es == [es[0]] + [e];
  }

  /** A call records the move it makes, and no other. */
  lemma StatusEventsOf(row: Row, op: Op)
    requires Refusal(row, op) == None
    ensures if RowAfter(row, op).status == row.status then Select(EventsFor(row, op), IsStatusEvent) == []
            else RecordsMove(EventsFor(row, op), row.status, RowAfter(row, op).status)
    ensures RowAfter(row, op).status != row.status ==> IsTransitionAllowed(row.status, RowAfter(row, op).status)
  {
    ClosedIsTheOnlyTerminal(row.status);
    if RowAfter(row, op).status == row.status {
      SelectNone(EventsFor(row, op), IsStatusEvent);
    } else if op.command.ChangeStatus? {
      StatusEventsOfChange(row, op);
    } else {
      StatusEventsOfRelease(row, op);
    }
  }

  lemma CommitStaysOnPath(t: Ticket, op: Op)
    requires OnPath(t)
    ensures OnPath(Commit(t, op))
  {
    if Refusal(t.row, op) == None {
      var es, next := EventsFor(t.row, op), RowAfter(t.row, op).status;
      SelectConcat(t.events, es, IsStatusEvent);
      StatusEventsOf(t.row, op);
      var path, more := Select(t.events, IsStatusEvent), Select(es, IsStatusEvent);
      if next != t.row.status {
        assert more == [more[0]];
        PathExtends(path, t.row.status, more[0], next);
      } else {
        assert path + more == path;
      }
    }
  }

  lemma NewTicketOnPath(i: Intake, w: Readings)
    ensures OnPath(NewTicket(i, w))
  {
    var es := NewTicket(i, w).events;
    SelectConcat(es[..1], es[1..], IsStatusEvent);
    SelectAll(es[..1], IsStatusEvent);
    SelectNone(es[1..], IsStatusEvent);
    assert es == es[..1] + es[1..];
  }

  /** Every recorded status history is a path of the table, also where a release moved the ticket past the guard. */
  lemma {:induction false} HistoryIsAPath(i: Intake, w: Readings, ops: seq<Op>)
    ensures OnPath(Run(NewTicket(i, w), ops))
  {
    if ops == [] {
      NewTicketOnPath(i, w);
    } else {
      HistoryIsAPath(i, w, ops[..|ops| - 1]);
      CommitStaysOnPath(Run(NewTicket(i, w), ops[..|ops| - 1]), ops[|ops| - 1]);
    }
  }

  /** Closed is final: whatever is asked afterwards, every call is refused and nothing changes. */
  lemma {:induction false} ClosedIsFrozen(t: Ticket, ops: seq<Op>)
    requires t.row.status == Closed
    ensures Run(t, ops) == t
    ensures forall op :: Apply(t, op) == Err(TicketClosed(Closed, []))
  {
    if ops != [] {
      ClosedIsFrozen(t, ops[..|ops| - 1]);
    }
  }

  // ---- repetition

  /** Repeating a successful call, by anyone and at any later time, with no stale `If-Match`. */
  predicate Repeats(again: Op, op: Op, version: nat) {
    again.command == op.command && (again.expected == None || again.expected == Some(version as int))
  }

  /** The repetition of an assignment, a priority or an edit changes nothing; that of a status change is refused. */
  lemma RepetitionIsHarmless(t: Ticket, op: Op, again: Op)
    requires Apply(t, op).Ok? && Repeats(again, op, Commit(t, op).row.version)
    ensures op.command.Assign? || op.command.ChangePriority? || op.command.UpdateDetails? ==>
              Apply(Commit(t, op), again) == Ok(Commit(t, op))
    ensures op.command.ChangeStatus? ==> Apply(Commit(t, op), again).Err?
  {
    var t' := Commit(t, op);
    ClosedIsTheOnlyTerminal(t.row.status);
    ClosedIsTheOnlyTerminal(t'.row.status);
    if op.command.Assign? || op.command.ChangePriority? || op.command.UpdateDetails? {
      assert t'.events + [] == t'.events && t'.comments + [] == t'.comments;
    }
  }

  /** Sending a ticket its own stored texts is a no-op, for every ticket a run can reach. */
  lemma OwnTextIsNoOp(i: Intake, w: Readings, ops: seq<Op>, op: Op, sendSubject: bool, sendDescription: bool)
    requires var row := Run(NewTicket(i, w), ops).row;
      && op.command == UpdateDetails(if sendSubject then Some(row.subject) else None,
                                     if sendDescription then Some(row.description) else None)
      && Refusal(row, op) == None
    ensures var t := Run(NewTicket(i, w), ops); Apply(t, op) == Ok(t)
  {
    var t := Run(NewTicket(i, w), ops);
    EveryTicketIsSound(i, w, ops);
    TrimIsIdempotent(t.row.subject, IsSpace);
    TrimIsIdempotent(t.row.description, IsSpace);
    assert t.events + [] == t.events && t.comments + [] == t.comments;
  }
}
