/** The event log carries the whole state: it replays forwards and undoes backwards. */
module Replay {
  import opened Wrappers
  import opened Vocabulary
  import opened Records
  import opened Text
  import opened Workflow
  import opened Runs

  /** The audited columns, as the text the log snapshots. */
  datatype Facts = Facts(status: string, priority: string, subject: string, description: string, assignee: string) {

    function Get(f: Field): string {
      match f
      case NoField => ""
      case StatusField => status
      case AssigneeField => assignee
      case PriorityField => priority
      case SubjectField => subject
      case DescriptionField => description
    }

    function Set(f: Field, text: string): Facts {
      match f
      case NoField => this
      case StatusField => this.(status := text)
      case AssigneeField => this.(assignee := text)
      case PriorityField => this.(priority := text)
      case SubjectField => this.(subject := text)
      case DescriptionField => this.(description := text)
    }
  }

  function FactsOf(row: Row): Facts {
    Facts(StatusText(row.status), PriorityText(row.priority), row.subject, row.description, OwnerName(row.assignee))
  }

  /** What was submitted, before any event. */
  function Submitted(i: Intake): Facts {
    Facts("", PriorityText(i.reportedPriority), Strip(i.subject), Strip(i.description), "")
  }

  /** Forwards: every event sets its field to its new value. */
  function Fold(f: Facts, es: seq<Event>): Facts {
    if es == [] then f else Fold(f, es[..|es| - 1]).Set(es[|es| - 1].field, es[|es| - 1].newValue)
  }

  /** Backwards: every event, latest first, puts its old value back. */
  function Undo(f: Facts, es: seq<Event>): Facts
    decreases es
  {
    if es == [] then f else Undo(f.Set(es[|es| - 1].field, es[|es| - 1].oldValue), es[..|es| - 1])
  }

  /** Per field, each old value is the new value before it, starting from `f`. */
  predicate Linked(f: Facts, es: seq<Event>) {
    forall k | 0 <= k < |es| && es[k].field != NoField :: es[k].oldValue == Fold(f, es[..k]).Get(es[k].field)
  }

  lemma {:induction false} FoldConcat(f: Facts, a: seq<Event>, b: seq<Event>)
    ensures Fold(f, a + b) == Fold(Fold(f, a), b)
  {
    if b == [] {
      assert a + b == a;
    } else {
      assert (a + b)[..|a + b| - 1] == a + b[..|b| - 1];
      FoldConcat(f, a, b[..|b| - 1]);
    }
  }

  lemma LinkedConcat(f: Facts, a: seq<Event>, b: seq<Event>)
    requires Linked(f, a) && Linked(Fold(f, a), b)
    ensures Linked(f, a + b)
  {
    forall k | 0 <= k < |a + b| && (a + b)[k].field != NoField
      ensures (a + b)[k].oldValue == Fold(f, (a + b)[..k]).Get((a + b)[k].field)
    {
      if k < |a| {
        assert (a + b)[..k] == a[..k];
      } else {
        assert (a + b)[..k] == a + b[..k - |a|];
        FoldConcat(f, a, b[..k - |a|]);
      }
    }
  }

  lemma LinkedTail(f: Facts, a: seq<Event>, b: seq<Event>)
    requires Linked(f, a + b)
    ensures Linked(Fold(f, a), b)
  {
    forall n | 0 <= n < |b| && b[n].field != NoField
      ensures b[n].oldValue == Fold(Fold(f, a), b[..n]).Get(b[n].field)
    {
      assert (a + b)[..|a| + n] == a + b[..n] && (a + b)[|a| + n] == b[n];
      FoldConcat(f, a, b[..n]);
    }
  }

  /** A linked log undoes itself. */
  lemma {:induction false} UndoReversesFold(f: Facts, es: seq<Event>)
    requires Linked(f, es)
    ensures Undo(Fold(f, es), es) == f
  {
    if es != [] {
      var init, last := es[..|es| - 1], es[|es| - 1];
      assert Linked(f, init) by {
        forall k | 0 <= k < |init| && init[k].field != NoField
          ensures init[k].oldValue == Fold(f, init[..k]).Get(init[k].field)
        {
          assert init[..k] == es[..k];
        }
      }
      UndoReversesFold(f, init);
      assert Fold(f, es).Set(last.field, last.oldValue) == Fold(f, init);
    }
  }

  lemma LinkedOne(f: Facts, e: Event)
    requires e.field != NoField ==> e.oldValue == f.Get(e.field)
    ensures Linked(f, [e]) && Fold(f, [e]) == f.Set(e.field, e.newValue)
  {
    assert [e][..0] == [];
  }

  lemma LinkedTwo(f: Facts, a: Event, b: Event)
    requires a.field != NoField ==> a.oldValue == f.Get(a.field)
    requires b.field != NoField ==> b.oldValue == f.Set(a.field, a.newValue).Get(b.field)
    ensures Linked(f, [a, b]) && Fold(f, [a, b]) == f.Set(a.field, a.newValue).Set(b.field, b.newValue)
  {
    LinkedOne(f, a);
    LinkedOne(f.Set(a.field, a.newValue), b);
    LinkedConcat(f, [a], [b]);
    FoldConcat(f, [a], [b]);
    assert [a, b] == [a] + [b];
  }

  /** Events that lead exactly from one state of the audited columns to another. */
  predicate Leads(f: Facts, es: seq<Event>, f': Facts) {
    Linked(f, es) && Fold(f, es) == f'
  }

  /** One event, or two, each with the old value its field then has. */
  lemma ShortLogLeads(f: Facts, es: seq<Event>)
    requires 1 <= |es| <= 2
    requires es[0].field != NoField ==> es[0].oldValue == f.Get(es[0].field)
    requires |es| == 2 && es[1].field != NoField ==>
      es[1].oldValue == f.Set(es[0].field, es[0].newValue).Get(es[1].field)
    ensures Linked(f, es)
    ensures Fold(f, es) ==
      var g := f.Set(es[0].field, es[0].newValue); if |es| == 1 then g else g.Set(es[1].field, es[1].newValue)
  {
    if |es| == 1 {
      LinkedOne(f, es[0]);
      assert es == [es[0]];
    } else {
      LinkedTwo(f, es[0], es[1]);
      assert es == [es[0], es[1]];
    }
  }

  lemma EditsTellTheCall(row: Row, op: Op)
    requires op.command.UpdateDetails? && !IsNoOp(row, op)
    ensures Leads(FactsOf(row), EventsFor(row, op), FactsOf(RowAfter(row, op)))
  {
    ShortLogLeads(FactsOf(row), EventsFor(row, op));
  }

  lemma MovesTellTheCall(row: Row, op: Op)
    requires op.command.ChangeStatus? || (op.command.Assign? && op.command.assignee == None && !IsNoOp(row, op))
    ensures Leads(FactsOf(row), EventsFor(row, op), FactsOf(RowAfter(row, op)))
  {
    ShortLogLeads(FactsOf(row), EventsFor(row, op));
  }

  /** The events of one call lead exactly from the audited columns before to those after. */
  lemma EventsTellTheCall(row: Row, op: Op)
    requires Refusal(row, op) == None
    ensures Leads(FactsOf(row), EventsFor(row, op), FactsOf(RowAfter(row, op)))
  {
    var es, f := EventsFor(row, op), FactsOf(row);
    if IsNoOp(row, op) {
      assert es == [];
    } else {
      match op.command
      case UpdateDetails(_, _) => EditsTellTheCall(row, op);
      case ChangeStatus(_, _) => MovesTellTheCall(row, op);
      case Assign(None, _) => MovesTellTheCall(row, op);
      case _ => LinkedOne(f, es[0]);
    }
  }

  predicate Replays(i: Intake, t: Ticket) {
    Leads(Submitted(i), t.events, FactsOf(t.row))
  }

  lemma NewTicketReplays(i: Intake, w: Readings)
    ensures Replays(i, NewTicket(i, w))
  {
    ShortLogLeads(Submitted(i), NewTicket(i, w).events);
  }

  lemma CommitKeepsReplay(i: Intake, t: Ticket, op: Op)
    requires Replays(i, t)
    ensures Replays(i, Commit(t, op))
  {
    if Refusal(t.row, op) == None {
      EventsTellTheCall(t.row, op);
      LinkedConcat(Submitted(i), t.events, EventsFor(t.row, op));
      FoldConcat(Submitted(i), t.events, EventsFor(t.row, op));
    }
  }

  lemma {:induction false} RunReplays(i: Intake, w: Readings, ops: seq<Op>)
    ensures Replays(i, Run(NewTicket(i, w), ops))
  {
    if ops == [] {
      NewTicketReplays(i, w);
    } else {
      RunReplays(i, w, ops[..|ops| - 1]);
      CommitKeepsReplay(i, Run(NewTicket(i, w), ops[..|ops| - 1]), ops[|ops| - 1]);
    }
  }

  /**
   * For every run: folding the log over the submission gives the current row, undoing the log from
   * the current row gives the submission back, and per field every old value is the previous new value.
   */
  lemma HistoryCannotLie(i: Intake, w: Readings, ops: seq<Op>)
    ensures var t := Run(NewTicket(i, w), ops);
      && Fold(Submitted(i), t.events) == FactsOf(t.row)
      && Undo(FactsOf(t.row), t.events) == Submitted(i)
      && Linked(Submitted(i), t.events)
  {
    RunReplays(i, w, ops);
    UndoReversesFold(Submitted(i), Run(NewTicket(i, w), ops).events);
  }

  /** The log also recovers every earlier moment: undoing only the newer events gives that moment's row. */
  lemma UndoReachesAnyMoment(i: Intake, w: Readings, ops: seq<Op>, k: nat)
    requires k <= |ops|
    ensures var t, then_ := Run(NewTicket(i, w), ops), Run(NewTicket(i, w), ops[..k]);
      then_.events <= t.events && Undo(FactsOf(t.row), t.events[|then_.events|..]) == FactsOf(then_.row)
  {
    var t0 := NewTicket(i, w);
    var t, then_ := Run(t0, ops), Run(t0, ops[..k]);
    assert ops[..|ops|] == ops;
    RunSplit(t0, ops, k, |ops|);
    VersionNeverFalls(then_, ops[k..]);
    RunReplays(i, w, ops);
    RunReplays(i, w, ops[..k]);
    var old_, new_ := then_.events, t.events[|then_.events|..];
    assert t.events == old_ + new_;
    FoldConcat(Submitted(i), old_, new_);
    LinkedTail(Submitted(i), old_, new_);
    UndoReversesFold(FactsOf(then_.row), new_);
  }
}
