/** Who may do what (apps/tickets/permissions.py), and what that means for ownership over whole runs. */
module Access {
  import opened Wrappers
  import opened Vocabulary
  import opened Records
  import opened Workflow
  import opened Runs

  datatype Action =
    | View | Create | EditDetails | MoveStatus | Reprioritise | Allocate | Remark

  /** Everything a rule may look at. A target of None, when there is one, means "release". */
  datatype AccessContext = AccessContext(actor: User, ticket: Option<Row>, hasTarget: bool, target: Option<string>)

  datatype Rule = Always | OwnerOrUnclaimed | SelfServiceAssignment {

    predicate Holds(c: AccessContext) {
      match this
      case Always => true
      case OwnerOrUnclaimed => c.ticket.Some? ==> c.ticket.value.assignee in {None, Some(c.actor)}
      case SelfServiceAssignment =>
        if c.ticket == None || !c.hasTarget then true
        else if c.target == None then c.ticket.value.assignee == Some(c.actor)
        else if c.target != Some(c.actor.publicId) then false
        else c.ticket.value.assignee in {None, Some(c.actor)}
    }
  }

  /** The complete authorisation model. */
  const ACCESS_MATRIX: map<Action, map<Role, Rule>> := map[
    View := map[Agent := Always, Supervisor := Always],
    Create := map[Agent := Always, Supervisor := Always],
    Remark := map[Agent := Always, Supervisor := Always],
    Reprioritise := map[Agent := Always, Supervisor := Always],
    EditDetails := map[Agent := OwnerOrUnclaimed, Supervisor := Always],
    MoveStatus := map[Agent := OwnerOrUnclaimed, Supervisor := Always],
    Allocate := map[Agent := SelfServiceAssignment, Supervisor := Always]]

  predicate IsAllowed(action: Action, c: AccessContext) {
    && action in ACCESS_MATRIX
    && c.actor.role in ACCESS_MATRIX[action]
    && ACCESS_MATRIX[action][c.actor.role].Holds(c)
  }

  function ActionOf(command: Command): Action {
    match command
    case ChangeStatus(_, _) => MoveStatus
    case Assign(_, _) => Allocate
    case ChangePriority(_, _) => Reprioritise
    case UpdateDetails(_, _) => EditDetails
    case AddComment(_, _) => Remark
  }

  function ContextOf(row: Row, op: Op): AccessContext {
    AccessContext(
      op.actor, Some(row), op.command.Assign?,
      if op.command.Assign? && op.command.assignee.Some? then Some(op.command.assignee.value.publicId) else None)
  }

  /** The decision on the ticket a call is about. */
  predicate Permitted(row: Row, op: Op) { IsAllowed(ActionOf(op.command), ContextOf(row, op)) }

  /** Public ids are unique: the user a body names by the actor's own public id is the actor. */
  predicate Identified(op: Op) {
    op.command.Assign? && op.command.assignee.Some? && op.command.assignee.value.publicId == op.actor.publicId
    ==> op.command.assignee.value == op.actor
  }

  /** Nobody's, or the actor's own. */
  predicate FreeOrOwn(row: Row, user: User) { row.assignee == None || row.assignee == Some(user) }

  /**
   * What staff may do, in plain words. Supervisors may do everything. Agents may comment on and reclassify any
   * ticket; they move and edit what is free or theirs, release what is theirs, and take, for nobody but themselves,
   * what is free or theirs. Nobody else may do anything.
   */
  lemma WhatStaffMayDo(row: Row, op: Op)
    ensures op.actor.role == Supervisor ==> Permitted(row, op)
    ensures op.actor.role != Supervisor && op.actor.role != Agent ==> !Permitted(row, op)
    ensures op.actor.role == Agent ==>
      (Permitted(row, op) <==>
         match op.command
         case ChangePriority(_, _) => true
         case AddComment(_, _) => true
         case ChangeStatus(_, _) => FreeOrOwn(row, op.actor)
         case UpdateDetails(_, _) => FreeOrOwn(row, op.actor)
         case Assign(None, _) => row.assignee == Some(op.actor)
         case Assign(Some(user), _) => user.publicId == op.actor.publicId && FreeOrOwn(row, op.actor))
  {
  }

  /** A rule looks at the ticket only through its owner. */
  lemma DecisionDependsOnOwner(a: Row, b: Row, op: Op)
    requires a.assignee == b.assignee
    ensures Permitted(a, op) <==> Permitted(b, op)
  {
  }

  /** Without a ticket to look at, every rule lets staff pass, and nobody else is in the matrix. */
  lemma StaffPassTheFirstPhase(action: Action, user: User)
    ensures IsAllowed(action, AccessContext(user, None, false, None)) <==> user.role in {Agent, Supervisor}
    ensures forall c | IsAllowed(action, c) :: c.actor.role in {Agent, Supervisor}
  {
    assert action in ACCESS_MATRIX && Agent in ACCESS_MATRIX[action] && Supervisor in ACCESS_MATRIX[action];
  }

  // ---- the adapter between the web framework and the matrix

  const VIEW_ACTION_MAP: map<string, Action> := map[
    "list" := View, "retrieve" := View, "timeline" := View, "metadata" := View, "create" := Create,
    "partial_update" := EditDetails, "change_status" := MoveStatus, "change_priority" := Reprioritise,
    "assign" := Allocate, "assign_to_me" := Allocate]

  /** The parsed body: only a JSON object has an `assignee_id`, which may be missing, null or text. */
  datatype Payload = NotAnObject | Object(assigneeId: Option<string>)

  /** Without a user the request is not authenticated; without a view action no handler is routed for its method. */
  datatype Request = Request(viewAction: Option<string>, isPost: bool, user: Option<User>, payload: Payload)

  function ResolveAction(r: Request): Option<Action> {
    if r.viewAction == Some("comments") then Some(if r.isPost then Remark else View)
    else if r.viewAction.Some? && r.viewAction.value in VIEW_ACTION_MAP then Some(VIEW_ACTION_MAP[r.viewAction.value])
    else None
  }

  function ResolveTarget(r: Request): (bool, Option<string>)
    requires r.user.Some?
  {
    if r.viewAction == Some("assign_to_me") then (true, Some(r.user.value.publicId))
    else if r.viewAction != Some("assign") || r.payload == NotAnObject then (false, None)
    else (true, if r.payload.assigneeId == Some("") then None else r.payload.assigneeId)
  }

  function DenialMessage(action: Action): string {
    match action
    case MoveStatus => "Only the assigned agent or a supervisor can change this ticket."
    case EditDetails => "Only the assigned agent or a supervisor can edit this ticket."
    case Allocate => "Only a supervisor can assign a ticket to another agent."
    case _ => DEFAULT_DENIAL
  }

  const DEFAULT_DENIAL := "You do not have permission to perform this action on this ticket."

  function RequestContext(r: Request, row: Row): AccessContext
    requires r.user.Some?
  {
    var (hasTarget, target) := ResolveTarget(r);
    AccessContext(r.user.value, Some(row), hasTarget, target)
  }

  /** What the object check answers about a request on a ticket. */
  predicate AllowedOn(r: Request, row: Row)
    requires r.user.Some?
  {
    ResolveAction(r).Some? && IsAllowed(ResolveAction(r).value, RequestContext(r, row))
  }

  /** The actions whose answer does not depend on the ticket. */
  const OPEN_TO_STAFF := {
    "list", "retrieve", "timeline", "metadata", "create", "comments", "change_priority"}

  /** What the object check answers about a request, in plain words. */
  lemma WhatStaffMayRequest(r: Request, row: Row)
    requires r.user.Some?
    ensures var staff := r.user.value.role == Agent || r.user.value.role == Supervisor;
      var known := r.viewAction.Some? && (r.viewAction.value in OPEN_TO_STAFF
        || r.viewAction.value in {"partial_update", "change_status", "assign", "assign_to_me"});
      && (!staff || !known ==> !AllowedOn(r, row))
      && (staff && known && r.user.value.role == Supervisor ==> AllowedOn(r, row))
    ensures r.user.value.role == Agent && r.viewAction.Some? ==>
      && (r.viewAction.value in OPEN_TO_STAFF ==> AllowedOn(r, row))
      && (r.viewAction.value in {"partial_update", "change_status", "assign_to_me"} ==>
            (AllowedOn(r, row) <==> FreeOrOwn(row, r.user.value)))
      && (r.viewAction.value == "assign" ==>
            (AllowedOn(r, row) <==>
               if r.payload == NotAnObject then true
               else if r.payload.assigneeId in {None, Some("")} then row.assignee == Some(r.user.value)
               else r.payload.assigneeId == Some(r.user.value.publicId) && FreeOrOwn(row, r.user.value)))
  {
  }

  lemma ActionsResolve(r: Request)
    ensures r.viewAction == Some("change_status") ==> ResolveAction(r) == Some(MoveStatus)
    ensures r.viewAction == Some("partial_update") ==> ResolveAction(r) == Some(EditDetails)
    ensures r.viewAction == Some("assign") || r.viewAction == Some("assign_to_me") ==> ResolveAction(r) == Some(Allocate)
    ensures r.viewAction == Some("comments") ==> ResolveAction(r) == Some(if r.isPost then Remark else View)
  {
  }

  /** What a denied request is told. */
  lemma DenialsSay(r: Request)
    requires ResolveAction(r).Some?
    ensures r.viewAction == Some("change_status") ==>
      DenialMessage(ResolveAction(r).value) == "Only the assigned agent or a supervisor can change this ticket."
    ensures r.viewAction == Some("partial_update") ==>
      DenialMessage(ResolveAction(r).value) == "Only the assigned agent or a supervisor can edit this ticket."
    ensures r.viewAction == Some("assign") || r.viewAction == Some("assign_to_me") ==>
      DenialMessage(ResolveAction(r).value) == "Only a supervisor can assign a ticket to another agent."
  {
    ActionsResolve(r);
  }

  class TicketActionPermission {
    var message: string

    constructor ()
      ensures message == DEFAULT_DENIAL
    {
      message := DEFAULT_DENIAL;
    }

    /**
     * The check before the ticket is fetched: staff may try any action there is, and a method without a handler is
     * left to be answered as such. It never refuses what the object check would allow.
     */
    method HasPermission(r: Request) returns (allowed: bool)
      ensures allowed <==>
        && r.user.Some? && r.user.value.role in {Agent, Supervisor}
        && (r.viewAction == None || ResolveAction(r).Some?)
      ensures r.user.Some? && !allowed ==> forall row :: !AllowedOn(r, row)
    {
      if r.user == None || r.user.value.role !in ACCESS_MATRIX[View] {
        return false;
      }
      if r.viewAction == None {
        return true;
      }
      var action := ResolveAction(r);
      if action == None {
        return false;
      }
      StaffPassTheFirstPhase(action.value, r.user.value);
      allowed := IsAllowed(action.value, AccessContext(r.user.value, None, false, None));
    }

    /** The object check: the matrix decides, and a denial leaves the message of its action behind. */
    method HasObjectPermission(r: Request, row: Row) returns (allowed: bool)
      requires r.user.Some?
      modifies this
      ensures allowed <==> AllowedOn(r, row)
      ensures r.user.value.role == Agent && r.viewAction in {Some("change_status"), Some("partial_update")} ==>
        (allowed <==> FreeOrOwn(row, r.user.value))
      ensures message ==
        if !allowed && ResolveAction(r).Some? then DenialMessage(ResolveAction(r).value) else old(message)
    {
      WhatStaffMayRequest(r, row);
      var action := ResolveAction(r);
      if action == None {
        return false;
      }
      var (hasTarget, target) := ResolveTarget(r);
      allowed := IsAllowed(action.value, AccessContext(r.user.value, Some(row), hasTarget, target));
      if !allowed {
        message := DenialMessage(action.value);
      }
    }
  }

  /** The request a view turns into a call: its action name, and for an assignment the user its body names. */
  predicate Delegates(r: Request, op: Op) {
    && r.user == Some(op.actor)
    && match op.command
       case ChangeStatus(_, _) => r.viewAction == Some("change_status")
       case ChangePriority(_, _) => r.viewAction == Some("change_priority")
       case UpdateDetails(_, _) => r.viewAction == Some("partial_update")
       case AddComment(_, _) => r.viewAction == Some("comments") && r.isPost
       case Assign(assignee, _) =>
         || (r.viewAction == Some("assign_to_me") && assignee == Some(op.actor))
         || (r.viewAction == Some("assign") && r.payload.Object? &&
             if assignee.Some?
             then assignee.value.publicId != "" && r.payload.assigneeId == Some(assignee.value.publicId)
             else r.payload.assigneeId == None)
  }

  /** What the adapter decides about a request is what the matrix says about the call it becomes. */
  lemma AdapterDecidesTheCall(r: Request, row: Row, op: Op)
    requires Delegates(r, op)
    ensures ResolveAction(r) == Some(ActionOf(op.command))
    ensures IsAllowed(ActionOf(op.command), RequestContext(r, row)) <==> Permitted(row, op)
  {
    assert VIEW_ACTION_MAP["change_status"] == MoveStatus && VIEW_ACTION_MAP["change_priority"] == Reprioritise
        && VIEW_ACTION_MAP["partial_update"] == EditDetails && VIEW_ACTION_MAP["assign"] == Allocate
        && VIEW_ACTION_MAP["assign_to_me"] == Allocate;
  }

  // ---- ownership

  /** If the call gets through, it is allowed on the state it writes to. */
  predicate Proper(t: Ticket, op: Op) {
    Identified(op) && (Apply(t, op).Ok? ==> Permitted(t.row, op))
  }

  /** Every call of the run is proper at its place. */
  ghost predicate PermittedRun(t: Ticket, ops: seq<Op>) {
    ops == [] || (PermittedRun(t, ops[..|ops| - 1]) && Proper(Run(t, ops[..|ops| - 1]), ops[|ops| - 1]))
  }

  lemma {:induction false} ProperAt(t: Ticket, ops: seq<Op>, k: nat)
    requires PermittedRun(t, ops) && k < |ops|
    ensures Proper(Run(t, ops[..k]), ops[k])
  {
    if k < |ops| - 1 {
      ProperAt(t, ops[..|ops| - 1], k);
      assert ops[..|ops| - 1][..k] == ops[..k];
    }
  }

  lemma PermittedAppend(t: Ticket, ops: seq<Op>, op: Op)
    requires PermittedRun(t, ops) && Proper(Run(t, ops), op)
    ensures PermittedRun(t, ops + [op])
  {
    assert (ops + [op])[..|ops|] == ops;
  }

  predicate ByAgents(ops: seq<Op>) { forall k | 0 <= k < |ops| :: ops[k].actor.role == Agent }

  /** An agent takes what nobody has and lets go of what is theirs; nothing else. */
  lemma AgentsOnlyTakeOrRelease(t: Ticket, op: Op)
    requires Apply(t, op).Ok? && Permitted(t.row, op) && Identified(op) && op.actor.role == Agent
    ensures var a, b := t.row.assignee, Commit(t, op).row.assignee;
      || b == a
      || (a == None && b == Some(op.actor))
      || (a == Some(op.actor) && b == None && exists e | e in EventsFor(t.row, op) :: Releases(e, op.actor))
    ensures forall e | e in EventsFor(t.row, op) && e.kind == Assigned ::
      e.newValue == op.actor.name && e.oldValue == "" && t.row.assignee == None
  {
    assert ACCESS_MATRIX[ActionOf(op.command)][Agent].Holds(ContextOf(t.row, op));
    if op.command.Assign? && op.command.assignee == None && t.row.assignee.Some? {
      assert Releases(EventsFor(t.row, op)[0], op.actor);
    }
  }

  predicate Releases(e: Event, owner: User) {
    e.kind == Unassigned && e.actor == Some(owner) && e.oldValue == owner.name
  }

  /** Ownership passes directly from one person to another only by a supervisor. */
  lemma HandoverNeedsSupervisor(t: Ticket, ops: seq<Op>, k: nat)
    requires PermittedRun(t, ops) && k < |ops|
    requires Run(t, ops[..k]).row.assignee.Some? && Run(t, ops[..k + 1]).row.assignee.Some?
    requires Run(t, ops[..k]).row.assignee != Run(t, ops[..k + 1]).row.assignee
    ensures ops[k].actor.role == Supervisor
  {
    RunNext(t, ops, k);
    var before, op := Run(t, ops[..k]), ops[k];
    ProperAt(t, ops, k);
    assert Apply(before, op).Ok?;
    if op.actor.role == Agent {
      AgentsOnlyTakeOrRelease(before, op);
    }
  }

  /** Every assignment an agent recorded names that agent and had no previous owner, automatic pick-up included. */
  lemma {:induction false} AgentsAssignThemselves(t: Ticket, ops: seq<Op>, e: Event)
    requires PermittedRun(t, ops)
    requires e in Run(t, ops).events && e !in t.events
    requires e.kind == Assigned && e.actor.Some? && e.actor.value.role == Agent
    ensures e.newValue == e.actor.value.name && e.oldValue == ""
  {
    if ops != [] {
      var k := |ops| - 1;
      var before, op := Run(t, ops[..k]), ops[k];
      if e in before.events {
        AgentsAssignThemselves(t, ops[..k], e);
      } else {
        assert e in EventsFor(before.row, op);
        EventsForKinds(before.row, op);
        AgentsOnlyTakeOrRelease(before, op);
      }
    }
  }

  /** The step at which an agent-owned ticket leaves its owner is a release by that owner. */
  lemma LeavingIsARelease(t: Ticket, op: Op, owner: User) returns (e: Event)
    requires Proper(t, op) && op.actor.role == Agent
    requires t.row.assignee == Some(owner) && Commit(t, op).row.assignee != Some(owner)
    ensures e in EventsFor(t.row, op) && Releases(e, owner)
    ensures Commit(t, op).events == t.events + EventsFor(t.row, op)
  {
    assert Apply(t, op).Ok?;
    AgentsOnlyTakeOrRelease(t, op);
    e :| e in EventsFor(t.row, op) && Releases(e, op.actor);
  }

  /** When a ticket has left its owner, some call took it from that owner. */
  lemma LeavingBetween(t: Ticket, ops: seq<Op>, i: nat, j: nat, owner: User) returns (k: nat)
    requires i <= j <= |ops| && OwnedAt(t, ops, i, owner) && !OwnedAt(t, ops, j, owner)
    ensures i <= k < j && OwnedAt(t, ops, k, owner) && !OwnedAt(t, ops, k + 1, owner)
  {
    k := LastBefore((m: nat) => m <= |ops| && OwnedAt(t, ops, m, owner), i, j);
  }

  lemma EventsOnlyGrow(t: Ticket, ops: seq<Op>, i: nat, j: nat)
    requires i <= j <= |ops|
    ensures Run(t, ops[..i]).events <= Run(t, ops[..j]).events
  {
    RunSplit(t, ops, i, j);
    VersionNeverFalls(Run(t, ops[..i]), ops[i..j]);
  }

  lemma NewInTheMiddle(a: seq<Event>, b: seq<Event>, es: seq<Event>, c: seq<Event>, e: Event)
    requires a <= b && b + es <= c && e in es
    ensures a <= c && e in c[|a|..]
  {
    var n :| 0 <= n < |es| && es[n] == e;
    assert c[|a|..][|b| - |a| + n] == (b + es)[|b| + n];
  }

  lemma LeavingAt(t: Ticket, ops: seq<Op>, k: nat, owner: User) returns (e: Event, es: seq<Event>)
    requires PermittedRun(t, ops) && ByAgents(ops) && k < |ops|
    requires OwnedAt(t, ops, k, owner) && !OwnedAt(t, ops, k + 1, owner)
    ensures Run(t, ops[..k + 1]).events == Run(t, ops[..k]).events + es && e in es && Releases(e, owner)
  {
    RunNext(t, ops, k);
    ProperAt(t, ops, k);
    e := LeavingIsARelease(Run(t, ops[..k]), ops[k], owner);
    es := EventsFor(Run(t, ops[..k]).row, ops[k]);
  }

  /** While only agents act, an owner stays the owner until an UNASSIGNED event of their own. */
  lemma OwnersLetGoThemselves(t: Ticket, ops: seq<Op>, i: nat, j: nat, owner: User) returns (e: Event)
    requires PermittedRun(t, ops) && ByAgents(ops) && i <= j <= |ops|
    requires OwnedAt(t, ops, i, owner) && !OwnedAt(t, ops, j, owner)
    ensures Run(t, ops[..i]).events <= Run(t, ops[..j]).events
    ensures e in Run(t, ops[..j]).events[|Run(t, ops[..i]).events|..] && Releases(e, owner)
  {
    var k := LeavingBetween(t, ops, i, j, owner);
    var es: seq<Event>;
    e, es := LeavingAt(t, ops, k, owner);
    EventsOnlyGrow(t, ops, i, k);
    EventsOnlyGrow(t, ops, k + 1, j);
    NewInTheMiddle(Run(t, ops[..i]).events, Run(t, ops[..k]).events, es, Run(t, ops[..j]).events, e);
  }

  /** In agents-only runs, between two different owners lies a release by the old one. */
  lemma ReleaseLiesBetweenOwners(t: Ticket, ops: seq<Op>, i: nat, j: nat, a: User, b: User) returns (e: Event)
    requires PermittedRun(t, ops) && ByAgents(ops) && i <= j <= |ops|
    requires OwnedAt(t, ops, i, a) && OwnedAt(t, ops, j, b) && a != b
    ensures Run(t, ops[..i]).events <= Run(t, ops[..j]).events
    ensures e in Run(t, ops[..j]).events[|Run(t, ops[..i]).events|..] && Releases(e, a)
  {
    e := OwnersLetGoThemselves(t, ops, i, j, a);
  }

  // ---- how long a decision stands

  /** Calls the matrix decides without looking at the ticket. */
  predicate Lasting(op: Op) { op.actor.role == Supervisor || op.command.ChangePriority? || op.command.AddComment? }

  /** A decision on `row` is final if the rule does not look at the ticket, or the call names no newer version. */
  predicate Settled(row: Row, op: Op) {
    Lasting(op) || (op.expected.Some? && op.expected.value <= row.version)
  }

  /** A settled decision stands wherever the call gets through later, whatever was done to the ticket in between. */
  lemma SettledDecisionStands(t: Ticket, op: Op, ops: seq<Op>)
    requires Permitted(t.row, op) && Settled(t.row, op) && Apply(Run(t, ops), op).Ok?
    ensures Permitted(Run(t, ops).row, op)
  {
    if Lasting(op) {
      assert op.actor.role in ACCESS_MATRIX[ActionOf(op.command)];
    } else {
      VersionNeverFalls(t, ops);
      DecisionDependsOnOwner(t.row, Run(t, ops).row, op);
    }
  }

  /** A status on the way when the table has no direct move. */
  function Via(current: Status, target: Status): Status {
    if target == Closed then Resolved else if current == InProgress then PendingCustomer else InProgress
  }

  lemma OneMoveOpensTheWay(current: Status, target: Status)
    requires current != Closed && !IsTransitionAllowed(current, target)
    ensures IsTransitionAllowed(current, Via(current, target)) && IsTransitionAllowed(Via(current, target), target)
  {
    assert IsTransitionAllowed(Open, Closed) && IsTransitionAllowed(Open, InProgress);
    assert IsTransitionAllowed(Resolved, Closed) && IsTransitionAllowed(Resolved, InProgress);
    assert IsTransitionAllowed(InProgress, PendingCustomer) && IsTransitionAllowed(InProgress, Resolved);
    assert IsTransitionAllowed(PendingCustomer, InProgress) && IsTransitionAllowed(PendingCustomer, Resolved);
    assert IsTransitionAllowed(InProgress, Open) && IsTransitionAllowed(PendingCustomer, Open);
  }

  function TakeOver(boss: User, w: Readings): Op { Op(boss, Assign(Some(boss), ""), None, w) }

  function Move(boss: User, target: Status, w: Readings): Op { Op(boss, ChangeStatus(target, ""), None, w) }

  /** A reclassification that changes the priority, whatever it is. */
  function Reclassify(boss: User, current: Priority, w: Readings): Op {
    Op(boss, ChangePriority(if current == Low then High else Low, ""), None, w)
  }

  lemma SupervisorsMay(row: Row, op: Op)
    requires op.actor.role == Supervisor
    ensures Permitted(row, op)
  {
    assert Supervisor in ACCESS_MATRIX[ActionOf(op.command)];
  }

  /** A permitted call that gets through and moves the version by one. */
  predicate Counts(t: Ticket, op: Op) {
    Apply(t, op).Ok? && Proper(t, op) && Commit(t, op).row.version == t.row.version + 1
  }

  lemma BossTakesOver(t: Ticket, boss: User, w: Readings)
    requires t.row.status != Closed && t.row.assignee != Some(boss) && boss.role == Supervisor
    ensures var op := TakeOver(boss, w);
      Counts(t, op) && Commit(t, op).row.assignee == Some(boss) && Commit(t, op).row.status == t.row.status
  {
    ClosedIsTheOnlyTerminal(t.row.status);
    SupervisorsMay(t.row, TakeOver(boss, w));
  }

  lemma BossMoves(t: Ticket, boss: User, target: Status, w: Readings)
    requires IsTransitionAllowed(t.row.status, target) && boss.role == Supervisor
    ensures var op := Move(boss, target, w);
      && Counts(t, op) && Commit(t, op).row.status == target
      && Commit(t, op).row.assignee == if PicksUp(t.row, target) then Some(boss) else t.row.assignee
  {
    SupervisorsMay(t.row, Move(boss, target, w));
  }

  lemma BossReclassifies(t: Ticket, boss: User, w: Readings)
    requires t.row.status != Closed && boss.role == Supervisor
    ensures var op := Reclassify(boss, t.row.priority, w);
      Counts(t, op) && Commit(t, op).row.assignee == t.row.assignee && Commit(t, op).row.status == t.row.status
  {
    ClosedIsTheOnlyTerminal(t.row.status);
    SupervisorsMay(t.row, Reclassify(boss, t.row.priority, w));
  }

  /** Every call of the run gets through at its place. */
  ghost predicate AllSucceed(t: Ticket, ops: seq<Op>) {
    ops == [] || (AllSucceed(t, ops[..|ops| - 1]) && Apply(Run(t, ops[..|ops| - 1]), ops[|ops| - 1]).Ok?)
  }

  /** Calls by one supervisor, taken at these readings, all permitted and all counted by the version. */
  ghost predicate Busy(t: Ticket, ops: seq<Op>, boss: User, ws: seq<Readings>) {
    && |ops| == |ws|
    && (forall k | 0 <= k < |ops| :: ops[k].w == ws[k] && ops[k].actor == boss && ops[k].expected == None)
    && PermittedRun(t, ops) && AllSucceed(t, ops) && Run(t, ops).row.version == t.row.version + |ops|
  }

  lemma BusyAppend(t: Ticket, ops: seq<Op>, boss: User, ws: seq<Readings>, op: Op)
    requires Busy(t, ops, boss, ws) && Counts(Run(t, ops), op) && op.actor == boss && op.expected == None
    ensures Busy(t, ops + [op], boss, ws + [op.w]) && Run(t, ops + [op]) == Commit(Run(t, ops), op)
  {
    RunAppend(t, ops, op);
    PermittedAppend(t, ops, op);
    assert (ops + [op])[..|ops|] == ops;
  }

  /** A supervisor can move the version as far as wanted and leave owner and status alone. */
  lemma {:induction false} BossKeepsBusy(t: Ticket, boss: User, ws: seq<Readings>) returns (ops: seq<Op>)
    requires t.row.status != Closed && boss.role == Supervisor
    ensures Busy(t, ops, boss, ws)
    ensures Run(t, ops).row.status == t.row.status && Run(t, ops).row.assignee == t.row.assignee
  {
    if ws == [] {
      ops := [];
    } else {
      var init, last := ws[..|ws| - 1], ws[|ws| - 1];
      var before := BossKeepsBusy(t, boss, init);
      var op := Reclassify(boss, Run(t, before).row.priority, last);
      BossReclassifies(Run(t, before), boss, last);
      BusyAppend(t, before, boss, init, op);
      assert init + [last] == ws;
      ops := before + [op];
    }
  }

  /** One call is enough to own the ticket and leave it where the request's move is allowed. */
  predicate OneCallSuffices(row: Row, op: Op) {
    op.command.ChangeStatus? ==>
      || IsTransitionAllowed(row.status, op.command.target)
      || (row.assignee == None && IsTransitionAllowed(row.status, InProgress)
          && IsTransitionAllowed(InProgress, op.command.target))
  }

  /**
   * The requests another person can get in the way of, as far as their sender can tell: an agent's edit, assignment
   * or move of an open ticket that names no version, or one the ticket has still to reach.
   */
  predicate CanBeOvertaken(row: Row, op: Op) {
    && row.status != Closed && !Lasting(op)
    && (op.expected.Some? ==>
          || op.expected.value >= row.version + 2
          || (op.expected.value == row.version + 1 && OneCallSuffices(row, op)))
  }

  /** How many calls of a supervisor that takes. */
  function CallsNeeded(row: Row, op: Op): nat
    requires CanBeOvertaken(row, op)
  {
    if op.expected.Some? then op.expected.value - row.version else if OneCallSuffices(row, op) then 1 else 2
  }

  /** The ticket as the request must not find it: owned by that supervisor, and open to the request's move. */
  predicate InTheWay(row: Row, op: Op, boss: User) {
    && row.assignee == Some(boss) && row.status != Closed
    && (op.command.ChangeStatus? ==> IsTransitionAllowed(row.status, op.command.target))
  }

  lemma BossGetsInTheWay(t: Ticket, op: Op, boss: User, w: Readings) returns (last: Op)
    requires t.row.status != Closed && t.row.assignee != Some(boss) && boss.role == Supervisor
    requires OneCallSuffices(t.row, op)
    ensures Counts(t, last) && last.actor == boss && last.expected == None && last.w == w
    ensures InTheWay(Commit(t, last).row, op, boss)
  {
    if op.command.ChangeStatus? && !IsTransitionAllowed(t.row.status, op.command.target) {
      last := Move(boss, InProgress, w);
      BossMoves(t, boss, InProgress, w);
    } else {
      last := TakeOver(boss, w);
      BossTakesOver(t, boss, w);
    }
  }

  lemma BossGetsInTheWayInTwo(t: Ticket, op: Op, boss: User, w1: Readings, w2: Readings) returns (first: Op, second: Op)
    requires t.row.status != Closed && t.row.assignee != Some(boss) && boss.role == Supervisor
    requires !OneCallSuffices(t.row, op)
    ensures Counts(t, first) && first.actor == boss && first.expected == None && first.w == w1
    ensures Counts(Commit(t, first), second) && second.actor == boss && second.expected == None && second.w == w2
    ensures InTheWay(Commit(Commit(t, first), second).row, op, boss)
  {
    var via := Via(t.row.status, op.command.target);
    first, second := TakeOver(boss, w1), Move(boss, via, w2);
    BossTakesOver(t, boss, w1);
    OneMoveOpensTheWay(t.row.status, op.command.target);
    BossMoves(Commit(t, first), boss, via, w2);
    ClosedIsTheOnlyTerminal(via);
  }

  /** A ticket in somebody else's hands refuses an agent, though the service does not. */
  lemma OwnedByAnother(row: Row, op: Op, boss: User)
    requires op.actor.role == Agent && boss.role == Supervisor && !Lasting(op) && InTheWay(row, op, boss)
    requires op.expected.Some? ==> op.expected.value == row.version
    ensures Refusal(row, op) == None && !Permitted(row, op)
  {
    ClosedIsTheOnlyTerminal(row.status);
    assert Agent in ACCESS_MATRIX[ActionOf(op.command)];
  }

  lemma AgentsDecisionWasOnOwnOrFree(row: Row, op: Op, boss: User)
    requires Permitted(row, op) && !Lasting(op) && boss.role == Supervisor
    ensures op.actor.role == Agent && row.assignee != Some(boss)
  {
    assert op.actor.role in ACCESS_MATRIX[ActionOf(op.command)];
  }

  lemma BossOvertakesInOne(t: Ticket, op: Op, boss: User, ws: seq<Readings>, w: Readings) returns (ops: seq<Op>)
    requires t.row.status != Closed && t.row.assignee != Some(boss) && boss.role == Supervisor
    requires OneCallSuffices(t.row, op)
    ensures Busy(t, ops, boss, ws + [w]) && InTheWay(Run(t, ops).row, op, boss)
  {
    var before := BossKeepsBusy(t, boss, ws);
    var last := BossGetsInTheWay(Run(t, before), op, boss, w);
    BusyAppend(t, before, boss, ws, last);
    ops := before + [last];
  }

  lemma BossOvertakesInTwo(t: Ticket, op: Op, boss: User, ws: seq<Readings>, w1: Readings, w2: Readings)
    returns (ops: seq<Op>)
    requires t.row.status != Closed && t.row.assignee != Some(boss) && boss.role == Supervisor
    requires !OneCallSuffices(t.row, op)
    ensures Busy(t, ops, boss, ws + [w1] + [w2]) && InTheWay(Run(t, ops).row, op, boss)
  {
    var before := BossKeepsBusy(t, boss, ws);
    var first, second := BossGetsInTheWayInTwo(Run(t, before), op, boss, w1, w2);
    BusyAppend(t, before, boss, ws, first);
    BusyAppend(t, before + [first], boss, ws + [w1], second);
    ops := before + [first] + [second];
  }

  lemma SplitLast<T>(s: seq<T>)
    ensures s != [] ==> s == s[..|s| - 1] + [s[|s| - 1]]
    ensures |s| >= 2 ==> s == s[..|s| - 2] + [s[|s| - 2]] + [s[|s| - 1]]
  {
  }

  lemma BossOvertakesByLast(t: Ticket, op: Op, boss: User, ws: seq<Readings>) returns (ops: seq<Op>)
    requires t.row.status != Closed && t.row.assignee != Some(boss) && boss.role == Supervisor
    requires OneCallSuffices(t.row, op) && |ws| >= 1
    ensures Busy(t, ops, boss, ws) && InTheWay(Run(t, ops).row, op, boss)
  {
    SplitLast(ws);
    ops := BossOvertakesInOne(t, op, boss, ws[..|ws| - 1], ws[|ws| - 1]);
  }

  lemma BossOvertakesByLastTwo(t: Ticket, op: Op, boss: User, ws: seq<Readings>) returns (ops: seq<Op>)
    requires t.row.status != Closed && t.row.assignee != Some(boss) && boss.role == Supervisor
    requires !OneCallSuffices(t.row, op) && |ws| >= 2
    ensures Busy(t, ops, boss, ws) && InTheWay(Run(t, ops).row, op, boss)
  {
    SplitLast(ws);
    ops := BossOvertakesInTwo(t, op, boss, ws[..|ws| - 2], ws[|ws| - 2], ws[|ws| - 1]);
  }

  lemma EnoughCalls(row: Row, op: Op)
    requires CanBeOvertaken(row, op)
    ensures row.status != Closed && CallsNeeded(row, op) >= if OneCallSuffices(row, op) then 1 else 2
  {
  }

  lemma BossOvertakes(t: Ticket, op: Op, boss: User, ws: seq<Readings>) returns (ops: seq<Op>)
    requires CanBeOvertaken(t.row, op) && |ws| == CallsNeeded(t.row, op)
    requires t.row.assignee != Some(boss) && boss.role == Supervisor
    ensures Busy(t, ops, boss, ws) && InTheWay(Run(t, ops).row, op, boss)
  {
    EnoughCalls(t.row, op);
    if OneCallSuffices(t.row, op) {
      ops := BossOvertakesByLast(t, op, boss, ws);
    } else {
      ops := BossOvertakesByLastTwo(t, op, boss, ws);
    }
  }

  /** Such a request is overtaken by any supervisor, with calls that are themselves permitted. */
  lemma UnsettledDecisionCanBeOvertaken(t: Ticket, op: Op, boss: User, ws: seq<Readings>) returns (ops: seq<Op>)
    requires Permitted(t.row, op) && CanBeOvertaken(t.row, op) && |ws| == CallsNeeded(t.row, op)
    requires boss.role == Supervisor
    ensures Busy(t, ops, boss, ws) && Apply(Run(t, ops), op).Ok? && !Permitted(Run(t, ops).row, op)
  {
    AgentsDecisionWasOnOwnOrFree(t.row, op, boss);
    ops := BossOvertakes(t, op, boss, ws);
    OwnedByAnother(Run(t, ops).row, op, boss);
  }

  /** For instance: an agent who picks up a free ticket under the version that the ticket will have next. */
  lemma NamingTheNextVersionIsNotSafe(t: Ticket, op: Op)
    requires t.row.status == Open && t.row.assignee == None && op.actor.role == Agent
    requires op.command == ChangeStatus(InProgress, "") && op.expected == Some(t.row.version + 1)
    ensures Permitted(t.row, op) && !Stands(t, op)
  {
    assert ACCESS_MATRIX[MoveStatus][Agent] == OwnerOrUnclaimed;
    assert IsTransitionAllowed(Open, InProgress);
    DecisionStandsIff(t, op);
  }

  /** A request that names the next version and is not overtaken by the one call that brings the ticket there. */
  lemma NextVersionIsTooSoon(row: Row, last: Op, op: Op)
    requires Permitted(row, op) && !Lasting(op) && op.expected == Some(row.version + 1) && !OneCallSuffices(row, op)
    requires Refusal(row, last) == None
    ensures Refusal(RowAfter(row, last), op).Some? || Permitted(RowAfter(row, last), op)
  {
    assert Agent in ACCESS_MATRIX[MoveStatus] && Supervisor in ACCESS_MATRIX[MoveStatus];
  }

  /** What holds of the ticket at any later moment, if the request names the next version and is not overtaken. */
  predicate TooSoon(row0: Row, row: Row, op: Op) {
    && row0.version <= row.version
    && (row.version == row0.version ==> SameButActivity(row, row0))
    && (row.version == row0.version + 1 ==> Refusal(row, op).Some? || Permitted(row, op))
  }

  lemma CommitStaysTooSoon(row0: Row, t: Ticket, last: Op, op: Op)
    requires Permitted(row0, op) && !Lasting(op) && op.expected == Some(row0.version + 1) && !OneCallSuffices(row0, op)
    requires TooSoon(row0, t.row, op)
    ensures TooSoon(row0, Commit(t, last).row, op)
  {
    VersionMovesWithContent(t, last);
    if t.row.version == row0.version {
      DecisionDependsOnOwner(row0, t.row, op);
      if Refusal(t.row, last) == None { NextVersionIsTooSoon(t.row, last, op); }
    } else if !Effective(t, last) {
      DecisionDependsOnOwner(t.row, Commit(t, last).row, op);
    }
  }

  lemma {:induction false} NextVersionStaysTooSoon(t: Ticket, op: Op, ops: seq<Op>)
    requires Permitted(t.row, op) && !Lasting(op)
    requires op.expected == Some(t.row.version + 1) && !OneCallSuffices(t.row, op)
    ensures TooSoon(t.row, Run(t, ops).row, op)
  {
    if ops != [] {
      NextVersionStaysTooSoon(t, op, ops[..|ops| - 1]);
      CommitStaysTooSoon(t.row, Run(t, ops[..|ops| - 1]), ops[|ops| - 1], op);
    }
  }

  lemma UnovertakenDecisionStands(t: Ticket, op: Op, ops: seq<Op>)
    requires Permitted(t.row, op) && !CanBeOvertaken(t.row, op) && Apply(Run(t, ops), op).Ok?
    ensures Permitted(Run(t, ops).row, op)
  {
    if t.row.status == Closed {
      ClosedIsFrozen(t, ops);
    } else if Settled(t.row, op) {
      SettledDecisionStands(t, op, ops);
    } else {
      NextVersionStaysTooSoon(t, op, ops);
    }
  }

  /** Wherever a permitted run leads, if the call gets through there, it is still permitted there. */
  ghost predicate Stands(t: Ticket, op: Op) {
    forall ops | PermittedRun(t, ops) && Apply(Run(t, ops), op).Ok? :: Permitted(Run(t, ops).row, op)
  }

  /** Exactly when a decision made on the ticket as it is stands over every later run, for every permitted request. */
  lemma DecisionStandsIff(t: Ticket, op: Op)
    requires Permitted(t.row, op)
    ensures Stands(t, op) <==> !CanBeOvertaken(t.row, op)
  {
    if CanBeOvertaken(t.row, op) {
      var boss := User(0, "", Supervisor, "");
      var ops := UnsettledDecisionCanBeOvertaken(t, op, boss, seq(CallsNeeded(t.row, op), _ => op.w));
    } else {
      forall ops | Apply(Run(t, ops), op).Ok?
        ensures Permitted(Run(t, ops).row, op)
      {
        UnovertakenDecisionStands(t, op, ops);
      }
    }
  }
}
