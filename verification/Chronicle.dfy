/** Runs under a shared, never decreasing clock: the timeline, the comment feed and the row's time stamps. */
module Chronicle {
  import opened Wrappers
  import opened Vocabulary
  import opened Records
  import opened Workflow
  import opened Runs

  /** Each call takes its readings after those of the call before it; `floor` is the last reading before the run. */
  predicate Timely(floor: Stamp, ops: seq<Op>) {
    && (ops != [] ==> Follows(floor, ops[0].w[0]))
    && forall a, b | 0 <= a < b < |ops| :: Follows(ops[a].w[6], ops[b].w[0])
  }

  function Horizon(floor: Stamp, ops: seq<Op>): Stamp {
    if ops == [] then floor else ops[|ops| - 1].w[6]
  }

  lemma TimelyPrefix(floor: Stamp, ops: seq<Op>, k: nat)
    requires Timely(floor, ops) && k <= |ops|
    ensures Timely(floor, ops[..k])
    ensures k < |ops| ==> Follows(Horizon(floor, ops[..k]), ops[k].w[0])
  {
  }

  lemma TimelySuffix(floor: Stamp, ops: seq<Op>, k: nat)
    requires Timely(floor, ops) && k <= |ops|
    ensures Timely(Horizon(floor, ops[..k]), ops[k..])
  {
  }

  lemma TimelyAppend(floor: Stamp, ops: seq<Op>, op: Op)
    requires Timely(floor, ops) && Follows(Horizon(floor, ops), op.w[0])
    ensures Timely(floor, ops + [op]) && Horizon(floor, ops + [op]) == op.w[6]
  {
  }

  /** A timely run goes on after any later moment. */
  lemma TimelyConcat(floor: Stamp, a: seq<Op>, now: Stamp, b: seq<Op>)
    requires Timely(floor, a) && AtMost(Horizon(floor, a), now) && Timely(now, b)
    ensures Timely(floor, a + b)
  {
    forall i, j | 0 <= i < |a| && 0 <= j < |b|
      ensures Follows(a[i].w[6], b[j].w[0])
    {
      ReadingsAscend(a[|a| - 1].w);
      ReadingsAscend(b[0].w);
    }
  }

  lemma ReadingsAscend(w: Readings)
    ensures w[0].at <= w[1].at <= w[2].at <= w[3].at <= w[4].at <= w[5].at <= w[6].at
    ensures w[0].id < w[1].id < w[2].id < w[3].id < w[4].id < w[5].id < w[6].id
  {
  }

  // ---- order

  predicate Ordered(s: seq<Stamp>) { forall i, j | 0 <= i < j < |s| :: Follows(s[i], s[j]) }

  predicate UpTo(s: seq<Stamp>, floor: Stamp) { forall i | 0 <= i < |s| :: AtMost(s[i], floor) }

  function EventStamps(es: seq<Event>): seq<Stamp> { seq(|es|, i requires 0 <= i < |es| => es[i].stamp) }

  function CommentStamps(cs: seq<Comment>): seq<Stamp> { seq(|cs|, i requires 0 <= i < |cs| => cs[i].stamp) }

  /** No time in the row is after `floor`, and resolution is not after closure. */
  predicate RowDated(row: Row, floor: Stamp) {
    && row.createdAt <= floor.at && row.lastActivityAt <= floor.at
    && (row.firstAssignedAt.Some? ==> row.firstAssignedAt.value <= floor.at)
    && (row.resolvedAt.Some? ==> row.resolvedAt.value <= floor.at)
    && (row.closedAt.Some? ==> row.closedAt.value <= floor.at)
    && (row.resolvedAt.Some? && row.closedAt.Some? ==> row.resolvedAt.value <= row.closedAt.value)
  }

  /** Rows are inserted in the order of their stamps, and nothing in the ticket is dated after `floor`. */
  predicate Dated(t: Ticket, floor: Stamp) {
    && Ordered(EventStamps(t.events)) && UpTo(EventStamps(t.events), floor)
    && Ordered(CommentStamps(t.comments)) && UpTo(CommentStamps(t.comments), floor)
    && RowDated(t.row, floor)
  }

  /** The stamps of the events of a call are readings of that call, in their order. */
  lemma NewStampsOf(row: Row, op: Op)
    ensures Ordered(EventStamps(EventsFor(row, op))) && UpTo(EventStamps(EventsFor(row, op)), op.w[6])
    ensures forall s | s in EventStamps(EventsFor(row, op)) :: AtMost(op.w[0], s)
  {
    var es, w := EventsFor(row, op), op.w;
    ReadingsAscend(w);
    if |es| == 2 {
      assert es[0].stamp in {w[0], w[1], w[5]} && es[1].stamp in {w[1], w[5], w[6]};
      assert Follows(es[0].stamp, es[1].stamp);
    } else if |es| == 1 {
      assert es[0].stamp in {w[0], w[1], w[5]};
    } else {
      assert es == [];
    }
  }

  lemma OrderedConcat(a: seq<Stamp>, b: seq<Stamp>, floor: Stamp, top: Stamp)
    requires Ordered(a) && UpTo(a, floor) && Ordered(b) && UpTo(b, top) && AtMost(floor, top)
    requires forall s | s in b :: Follows(floor, s)
    ensures Ordered(a + b) && UpTo(a + b, top)
  {
    forall i, j | 0 <= i < j < |a + b|
      ensures Follows((a + b)[i], (a + b)[j])
    {
      if i < |a| <= j {
        assert AtMost(a[i], floor) && b[j - |a|] in b;
      }
    }
  }

  lemma NewRowDated(row: Row, op: Op, floor: Stamp)
    requires RowDated(row, floor) && Follows(floor, op.w[0])
    requires Refusal(row, op) == None && (row.resolvedAt.Some? ==> row.status == Resolved)
    requires row.closedAt == None
    ensures RowDated(RowAfter(row, op), op.w[6])
    ensures row.lastActivityAt <= RowAfter(row, op).lastActivityAt
  {
    ReadingsAscend(op.w);
  }

  lemma EventsStayOrdered(row: Row, op: Op, es: seq<Event>, floor: Stamp)
    requires Ordered(EventStamps(es)) && UpTo(EventStamps(es), floor) && Follows(floor, op.w[0])
    ensures var all := es + EventsFor(row, op);
      Ordered(EventStamps(all)) && UpTo(EventStamps(all), op.w[6])
  {
    var new_ := EventsFor(row, op);
    NewStampsOf(row, op);
    ReadingsAscend(op.w);
    assert EventStamps(es + new_) == EventStamps(es) + EventStamps(new_);
    OrderedConcat(EventStamps(es), EventStamps(new_), floor, op.w[6]);
  }

  lemma CommentsStayOrdered(op: Op, cs: seq<Comment>, floor: Stamp)
    requires Ordered(CommentStamps(cs)) && UpTo(CommentStamps(cs), floor) && Follows(floor, op.w[0])
    ensures var all := cs + CommentsFor(op);
      Ordered(CommentStamps(all)) && UpTo(CommentStamps(all), op.w[6])
  {
    var new_ := CommentsFor(op);
    ReadingsAscend(op.w);
    assert CommentStamps(cs + new_) == CommentStamps(cs) + CommentStamps(new_);
    OrderedConcat(CommentStamps(cs), CommentStamps(new_), floor, op.w[6]);
  }

  lemma DatedLater(t: Ticket, floor: Stamp, later: Stamp)
    requires Dated(t, floor) && AtMost(floor, later)
    ensures Dated(t, later)
  {
  }

  lemma CommitStaysDated(t: Ticket, op: Op, floor: Stamp)
    requires Dated(t, floor) && Follows(floor, op.w[0]) && Sound(t)
    ensures Dated(Commit(t, op), op.w[6])
    ensures t.row.lastActivityAt <= Commit(t, op).row.lastActivityAt
  {
    if Refusal(t.row, op) == None {
      ClosedIsTheOnlyTerminal(t.row.status);
      NewRowDated(t.row, op, floor);
      EventsStayOrdered(t.row, op, t.events, floor);
      CommentsStayOrdered(op, t.comments, floor);
    } else {
      ReadingsAscend(op.w);
      DatedLater(t, floor, op.w[6]);
    }
  }

  lemma {:induction false} RunStaysDated(t: Ticket, ops: seq<Op>, floor: Stamp)
    requires Dated(t, floor) && Timely(floor, ops) && Sound(t)
    ensures Dated(Run(t, ops), Horizon(floor, ops)) && Sound(Run(t, ops))
    ensures t.row.lastActivityAt <= Run(t, ops).row.lastActivityAt
  {
    if ops != [] {
      var k := |ops| - 1;
      TimelyPrefix(floor, ops, k);
      RunStaysDated(t, ops[..k], floor);
      CommitStaysDated(Run(t, ops[..k]), ops[k], Horizon(floor, ops[..k]));
      CommitKeepsSound(Run(t, ops[..k]), ops[k]);
    }
  }

  lemma NewTicketDated(i: Intake, w: Readings)
    ensures Dated(NewTicket(i, w), w[6]) && Sound(NewTicket(i, w))
  {
    NewTicketIsSound(i, w);
  }

  /** A run on a ticket from intake, under the clock. */
  ghost predicate Lived(w: Readings, ops: seq<Op>) { Timely(w[6], ops) }

  lemma LifeIsDated(i: Intake, w: Readings, ops: seq<Op>)
    requires Lived(w, ops)
    ensures Dated(Run(NewTicket(i, w), ops), Horizon(w[6], ops)) && Sound(Run(NewTicket(i, w), ops))
  {
    NewTicketDated(i, w);
    RunStaysDated(NewTicket(i, w), ops, w[6]);
  }

  /** The activity stamp never goes back. */
  lemma ActivityNeverGoesBack(i: Intake, w: Readings, ops: seq<Op>, k: nat)
    requires Lived(w, ops) && k <= |ops|
    ensures Run(NewTicket(i, w), ops[..k]).row.lastActivityAt <= Run(NewTicket(i, w), ops).row.lastActivityAt
  {
    var t0 := NewTicket(i, w);
    assert ops[..|ops|] == ops;
    RunSplit(t0, ops, k, |ops|);
    TimelyPrefix(w[6], ops, k);
    TimelySuffix(w[6], ops, k);
    LifeIsDated(i, w, ops[..k]);
    RunStaysDated(Run(t0, ops[..k]), ops[k..], Horizon(w[6], ops[..k]));
  }

  /** The activity stamp of a call that wrote anything lies within that call; for a comment it is the comment's own. */
  lemma ActivityMarksTheCall(t: Ticket, op: Op)
    ensures Commit(t, op).events != t.events ==>
      op.w[0].at <= Commit(t, op).row.lastActivityAt <= op.w[6].at
    ensures Commit(t, op).events == t.events ==> Commit(t, op).row.lastActivityAt == t.row.lastActivityAt
    ensures |Commit(t, op).comments| > |t.comments| ==>
      && Commit(t, op).row.lastActivityAt == Commit(t, op).comments[|t.comments|].stamp.at
      && Commit(t, op).row == t.row.(lastActivityAt := Commit(t, op).row.lastActivityAt)
  {
    ReadingsAscend(op.w);
    if Refusal(t.row, op) == None && Commit(t, op).events == t.events {
      assert |EventsFor(t.row, op)| == 0;
      if !IsNoOp(t.row, op) && Effective(t, op) {
        EventsOfEffectiveCalls(t, op);
      }
    }
  }

  // ---- the timeline query

  /** The order of the timeline: by creation time, then by key. */
  predicate Before(a: Stamp, b: Stamp) { a.at < b.at || (a.at == b.at && a.id < b.id) }

  /** `q` is an answer to the query for the rows of `table` in that order. */
  predicate AnswersOrderBy(q: seq<Event>, table: seq<Event>) {
    && multiset(q) == multiset(table)
    && forall i, j | 0 <= i < j < |q| :: !Before(q[j].stamp, q[i].stamp)
  }

  lemma SameFirst(q: seq<Event>, table: seq<Event>)
    requires AnswersOrderBy(q, table) && Ordered(EventStamps(table)) && table != []
    ensures q != [] && q[0] == table[0]
  {
    assert table[0] in multiset(q);
    var k :| 0 <= k < |q| && q[k] == table[0];
    assert q[0] in multiset(table);
    var m :| 0 <= m < |table| && table[m] == q[0];
    if m > 0 {
      assert Follows(EventStamps(table)[0], EventStamps(table)[m]);
    }
  }

  lemma MultisetTails(q: seq<Event>, table: seq<Event>)
    requires q != [] && table != [] && q[0] == table[0] && multiset(q) == multiset(table)
    ensures multiset(q[1..]) == multiset(table[1..])
  {
    assert q == [q[0]] + q[1..];
    assert table == [table[0]] + table[1..];
    assert multiset(q[1..]) == multiset(q) - multiset{q[0]};
    assert multiset(table[1..]) == multiset(table) - multiset{table[0]};
  }

  lemma TailsAnswer(q: seq<Event>, table: seq<Event>)
    requires q != [] && table != [] && q[0] == table[0]
    requires AnswersOrderBy(q, table) && Ordered(EventStamps(table))
    ensures AnswersOrderBy(q[1..], table[1..]) && Ordered(EventStamps(table[1..]))
  {
    MultisetTails(q, table);
    assert EventStamps(table[1..]) == EventStamps(table)[1..];
  }

  /** There is only one answer: the rows in the order they were inserted. */
  lemma {:induction false} OrderByIsInsertionOrder(q: seq<Event>, table: seq<Event>)
    requires AnswersOrderBy(q, table) && Ordered(EventStamps(table))
    ensures q == table
  {
    if table == [] {
      assert |multiset(q)| == 0;
    } else {
      SameFirst(q, table);
      TailsAnswer(q, table);
      OrderByIsInsertionOrder(q[1..], table[1..]);
      assert q == [q[0]] + q[1..] && table == [table[0]] + table[1..];
    }
  }

  /** Whatever a reader was shown at one moment is a prefix of what any later reader is shown. */
  lemma TimelineOnlyGrows(i: Intake, w: Readings, ops: seq<Op>, k: nat, earlier: seq<Event>, later: seq<Event>)
    requires Lived(w, ops) && k <= |ops|
    requires AnswersOrderBy(earlier, Run(NewTicket(i, w), ops[..k]).events)
    requires AnswersOrderBy(later, Run(NewTicket(i, w), ops).events)
    ensures earlier <= later
  {
    var t0 := NewTicket(i, w);
    assert ops[..|ops|] == ops;
    RunSplit(t0, ops, k, |ops|);
    VersionNeverFalls(Run(t0, ops[..k]), ops[k..]);
    TimelyPrefix(w[6], ops, k);
    LifeIsDated(i, w, ops);
    LifeIsDated(i, w, ops[..k]);
    OrderByIsInsertionOrder(earlier, Run(t0, ops[..k]).events);
    OrderByIsInsertionOrder(later, Run(t0, ops).events);
  }

  // ---- one feed instead of a merge

  /** The entries the timeline labels "comment" rather than "event". */
  predicate IsCommentEntry(e: Event) { e.comment.Some? }

  predicate Announces(e: Event, c: Comment) {
    && e.comment == Some(c.stamp.id) && e.kind == CommentAdded && e.actor == Some(c.author)
    && e.newValue == (if c.isInternal then "internal" else "public")
  }

  predicate FeedMatches(t: Ticket) {
    var feed := Select(t.events, IsCommentEntry);
    && |feed| == |t.comments|
    && forall k | 0 <= k < |feed| :: Announces(feed[k], t.comments[k])
  }

  /** A call adds a feed entry exactly when it adds a comment, and the entry announces that comment. */
  lemma FeedOfCall(row: Row, op: Op)
    ensures var feed := Select(EventsFor(row, op), IsCommentEntry);
      && |feed| == |CommentsFor(op)|
      && forall k | 0 <= k < |feed| :: Announces(feed[k], CommentsFor(op)[k])
  {
    if op.command.AddComment? {
      SelectAll(EventsFor(row, op), IsCommentEntry);
    } else {
      SelectNone(EventsFor(row, op), IsCommentEntry);
    }
  }

  lemma CommitKeepsFeed(t: Ticket, op: Op)
    requires FeedMatches(t)
    ensures FeedMatches(Commit(t, op))
  {
    if Refusal(t.row, op) == None {
      SelectConcat(t.events, EventsFor(t.row, op), IsCommentEntry);
      FeedOfCall(t.row, op);
    }
  }

  lemma {:induction false} RunKeepsFeed(i: Intake, w: Readings, ops: seq<Op>)
    ensures FeedMatches(Run(NewTicket(i, w), ops))
  {
    if ops == [] {
      SelectNone(NewTicket(i, w).events, IsCommentEntry);
    } else {
      RunKeepsFeed(i, w, ops[..|ops| - 1]);
      CommitKeepsFeed(Run(NewTicket(i, w), ops[..|ops| - 1]), ops[|ops| - 1]);
    }
  }

  /** Following the link of a feed entry into the comment table. */
  function Find(cs: seq<Comment>, id: nat): Option<Comment> {
    if cs == [] then None
    else if cs[|cs| - 1].stamp.id == id then Some(cs[|cs| - 1])
    else Find(cs[..|cs| - 1], id)
  }

  lemma {:induction false} FindAt(cs: seq<Comment>, k: nat)
    requires Ordered(CommentStamps(cs)) && k < |cs|
    ensures Find(cs, cs[k].stamp.id) == Some(cs[k])
  {
    if k < |cs| - 1 {
      var init := cs[..|cs| - 1];
      assert CommentStamps(cs)[..|cs| - 1] == CommentStamps(init);
      assert Follows(CommentStamps(cs)[k], CommentStamps(cs)[|cs| - 1]);
      FindAt(init, k);
    }
  }

  /**
   * The timeline agrees with the merge it replaces: its comment entries are the comments, one for one
   * and in the order of the comment list.
   */
  lemma FeedAgreesWithComments(i: Intake, w: Readings, ops: seq<Op>, timeline: seq<Event>)
    requires Lived(w, ops) && AnswersOrderBy(timeline, Run(NewTicket(i, w), ops).events)
    ensures var t := Run(NewTicket(i, w), ops);
      var feed := Select(timeline, IsCommentEntry);
      && |feed| == |t.comments|
      && (forall k | 0 <= k < |feed| ::
            feed[k].comment.Some? && Find(t.comments, feed[k].comment.value) == Some(t.comments[k]))
      && (forall a, b | 0 <= a < b < |feed| :: feed[a].comment != feed[b].comment)
      && Ordered(CommentStamps(t.comments))
  {
    var t := Run(NewTicket(i, w), ops);
    LifeIsDated(i, w, ops);
    OrderByIsInsertionOrder(timeline, t.events);
    RunKeepsFeed(i, w, ops);
    var feed := Select(timeline, IsCommentEntry);
    forall k | 0 <= k < |feed|
      ensures feed[k].comment.Some? && Find(t.comments, feed[k].comment.value) == Some(t.comments[k])
    {
      assert Announces(feed[k], t.comments[k]);
      FindAt(t.comments, k);
    }
    forall a, b | 0 <= a < b < |feed|
      ensures feed[a].comment != feed[b].comment
    {
      assert Follows(CommentStamps(t.comments)[a], CommentStamps(t.comments)[b]);
    }
  }

  // ---- the row's time stamps against the log

  /** `at` was read between the event before `es[k]` and `es[k]` itself. */
  predicate StampOf(at: nat, es: seq<Event>, k: nat)
    requires k < |es|
  {
    at <= es[k].stamp.at && forall j | 0 <= j < k :: es[j].stamp.at <= at
  }

  predicate EntersResolved(e: Event) { e.field == StatusField && e.newValue == StatusText(Resolved) }

  predicate LatestResolution(es: seq<Event>, k: nat)
    requires k < |es|
  {
    EntersResolved(es[k]) && forall j | k < j < |es| :: !EntersResolved(es[j])
  }

  predicate FirstAssignment(es: seq<Event>, k: nat)
    requires k < |es|
  {
    es[k].kind == Assigned && forall j | 0 <= j < k :: es[j].kind != Assigned
  }

  predicate StampsResolution(at: nat, es: seq<Event>) {
    exists k | 0 <= k < |es| :: LatestResolution(es, k) && StampOf(at, es, k)
  }

  predicate StampsFirstAssignment(at: nat, es: seq<Event>) {
    exists k | 0 <= k < |es| :: FirstAssignment(es, k) && StampOf(at, es, k)
  }

  /** `resolved_at` and `first_assigned_at` are the stamps of the events they stand for. */
  predicate Stamped(t: Ticket) {
    && (t.row.resolvedAt.Some? ==> StampsResolution(t.row.resolvedAt.value, t.events))
    && (t.row.firstAssignedAt.Some? ==> StampsFirstAssignment(t.row.firstAssignedAt.value, t.events))
  }

  /** A closed ticket ends with the event that closed it, and lacks `resolved_at` exactly when it was OPEN before. */
  predicate ClosedProperly(t: Ticket) {
    t.row.status == Closed ==>
      && t.events != []
      && var last := t.events[|t.events| - 1];
      && last.field == StatusField && last.newValue == StatusText(Closed)
      && (last.oldValue == StatusText(Open) || last.oldValue == StatusText(Resolved))
      && (t.row.resolvedAt == None <==> last.oldValue == StatusText(Open))
      && t.row.closedAt.Some? && t.row.closedAt.value <= last.stamp.at
      && forall j | 0 <= j < |t.events| - 1 :: t.events[j].stamp.at <= t.row.closedAt.value
  }

  lemma StatusTextsDiffer()
    ensures forall s, u {:trigger StatusText(s), StatusText(u)} :: StatusText(s) == StatusText(u) ==> s == u
    ensures forall s {:trigger StatusText(s)} :: StatusText(s) != ""
  {
    forall s: Status, u: Status
      ensures StatusText(s) == StatusText(u) ==> s == u
      ensures StatusText(s) != ""
    {
      TextsAreDistinct(s, u, Low, Low);
    }
  }

  lemma EventsUpTo(t: Ticket, floor: Stamp)
    requires Dated(t, floor)
    ensures forall j | 0 <= j < |t.events| :: t.events[j].stamp.at <= floor.at
  {
    forall j | 0 <= j < |t.events|
      ensures t.events[j].stamp.at <= floor.at
    {
      assert AtMost(EventStamps(t.events)[j], floor);
    }
  }

  lemma LatestResolutionSurvives(es: seq<Event>, more: seq<Event>, k: nat, at: nat)
    requires k < |es| && LatestResolution(es, k) && StampOf(at, es, k)
    requires forall e | e in more :: !EntersResolved(e)
    ensures LatestResolution(es + more, k) && StampOf(at, es + more, k)
  {
    forall j | k < j < |es + more|
      ensures !EntersResolved((es + more)[j])
    {
      if j >= |es| { assert more[j - |es|] in more; }
    }
  }

  /** Only a move to RESOLVED records one; any other call that keeps `resolved_at` set keeps its value. */
  lemma OtherCallsKeepResolution(row: Row, op: Op)
    requires Refusal(row, op) == None && !(op.command.ChangeStatus? && op.command.target == Resolved)
    ensures RowAfter(row, op).resolvedAt.Some? ==> RowAfter(row, op).resolvedAt == row.resolvedAt
    ensures forall e | e in EventsFor(row, op) :: !EntersResolved(e)
  {
    StatusTextsDiffer();
  }

  /** Which event the row's `resolved_at` points at after a call: a later resolution, or the same as before. */
  lemma CommitKeepsResolution(t: Ticket, op: Op, floor: Stamp)
    requires Stamped(t) && Dated(t, floor) && Follows(floor, op.w[0])
    ensures var t' := Commit(t, op);
      t'.row.resolvedAt.Some? ==> StampsResolution(t'.row.resolvedAt.value, t'.events)
  {
    if Refusal(t.row, op) == None && Commit(t, op).row.resolvedAt.Some? {
      var es, all := EventsFor(t.row, op), Commit(t, op).events;
      if op.command.ChangeStatus? && op.command.target == Resolved {
        EventsUpTo(t, floor);
        ReadingsAscend(op.w);
        assert es == [es[0]];
        assert LatestResolution(all, |t.events|) && StampOf(op.w[2].at, all, |t.events|);
      } else {
        OtherCallsKeepResolution(t.row, op);
        var k :| 0 <= k < |t.events| && LatestResolution(t.events, k) && StampOf(t.row.resolvedAt.value, t.events, k);
        LatestResolutionSurvives(t.events, es, k, t.row.resolvedAt.value);
      }
    }
  }

  /** The call that first sets `first_assigned_at` records the first assignment as its first event. */
  lemma FirstClaim(row: Row, op: Op)
    requires row.firstAssignedAt == None && RowAfter(row, op).firstAssignedAt.Some?
    ensures RowAfter(row, op).firstAssignedAt == Some(op.w[0].at)
    ensures EventsFor(row, op) != [] && EventsFor(row, op)[0].kind == Assigned && EventsFor(row, op)[0].stamp == op.w[1]
  {
  }

  lemma CommitKeepsFirstAssignment(t: Ticket, op: Op, floor: Stamp)
    requires Stamped(t) && Dated(t, floor) && Follows(floor, op.w[0]) && Sound(t)
    ensures var t' := Commit(t, op);
      t'.row.firstAssignedAt.Some? ==> StampsFirstAssignment(t'.row.firstAssignedAt.value, t'.events)
  {
    var all := Commit(t, op).events;
    if Refusal(t.row, op) == None && Commit(t, op).row.firstAssignedAt.Some? {
      if t.row.firstAssignedAt.Some? {
        CallKeepsIntakeColumns(t.row, op);
        var at := t.row.firstAssignedAt.value;
        var k :| 0 <= k < |t.events| && FirstAssignment(t.events, k) && StampOf(at, t.events, k);
        assert FirstAssignment(all, k) && StampOf(at, all, k);
      } else {
        FirstClaim(t.row, op);
        EventsUpTo(t, floor);
        ReadingsAscend(op.w);
        assert all[|t.events|] == EventsFor(t.row, op)[0];
        assert FirstAssignment(all, |t.events|) && StampOf(op.w[0].at, all, |t.events|);
      }
    }
  }

  lemma CommitClosesProperly(t: Ticket, op: Op, floor: Stamp)
    requires ClosedProperly(t) && Dated(t, floor) && Follows(floor, op.w[0]) && Sound(t)
    ensures ClosedProperly(Commit(t, op))
  {
    ClosedIsTheOnlyTerminal(t.row.status);
    if Refusal(t.row, op) == None && Commit(t, op).row.status == Closed {
      assert op.command == ChangeStatus(Closed, op.command.note);
      assert t.row.status == Open || t.row.status == Resolved;
      EventsUpTo(t, floor);
      ReadingsAscend(op.w);
      TextsAreDistinct(Open, Resolved, Low, Low);
      var e := StatusEvent(op.w[5], op.actor, t.row.status, Closed, op.command.note);
      assert EventsFor(t.row, op) == [e];
      assert Commit(t, op).events == t.events + [e];
    }
  }

  /**
   * Over every run: `resolved_at` is the stamp of the latest entry into RESOLVED, `first_assigned_at` that of the
   * first assignment, a closed ticket lacks `resolved_at` exactly when it was closed straight from OPEN, and
   * resolution never comes after closure.
   */
  lemma {:induction false} TimesMatchTheLog(i: Intake, w: Readings, ops: seq<Op>)
    requires Lived(w, ops)
    ensures var t := Run(NewTicket(i, w), ops);
      && Stamped(t) && ClosedProperly(t)
      && (t.row.resolvedAt.Some? && t.row.closedAt.Some? ==> t.row.resolvedAt.value <= t.row.closedAt.value)
  {
    LifeIsDated(i, w, ops);
    if ops != [] {
      var k := |ops| - 1;
      TimelyPrefix(w[6], ops, k);
      TimesMatchTheLog(i, w, ops[..k]);
      LifeIsDated(i, w, ops[..k]);
      var t, floor := Run(NewTicket(i, w), ops[..k]), Horizon(w[6], ops[..k]);
      CommitKeepsResolution(t, ops[k], floor);
      CommitKeepsFirstAssignment(t, ops[k], floor);
      CommitClosesProperly(t, ops[k], floor);
    }
  }

  /** Once set, `first_assigned_at` is never rewritten, and what the customer reported never changes. */
  lemma {:induction false} FirstAssignmentIsKept(t: Ticket, ops: seq<Op>)
    ensures t.row.firstAssignedAt.Some? ==> Run(t, ops).row.firstAssignedAt == t.row.firstAssignedAt
    ensures IntakeColumns(Run(t, ops).row) == IntakeColumns(t.row)
  {
    if ops != [] {
      FirstAssignmentIsKept(t, ops[..|ops| - 1]);
      CallKeepsIntakeColumns(Run(t, ops[..|ops| - 1]).row, ops[|ops| - 1]);
    }
  }

  /** What intake wrote and no call may touch. */
  function IntakeColumns(row: Row): (Priority, string, string, Option<User>, nat, Option<string>) {
    (row.reportedPriority, row.reportedByName, row.customer, row.createdBy, row.createdAt, row.dedupeHash)
  }

  lemma CallKeepsIntakeColumns(row: Row, op: Op)
    ensures IntakeColumns(RowAfter(row, op)) == IntakeColumns(row)
    ensures row.firstAssignedAt.Some? ==> RowAfter(row, op).firstAssignedAt == row.firstAssignedAt
  {
  }
}
