/**
 * Who owned a ticket over any interleaving of requests, although every permission is decided on an unlocked read:
 * what each finished call is answerable for, with nothing asked of the others.
 */
module Ownership {
  import opened Wrappers
  import opened Vocabulary
  import opened Records
  import opened Workflow
  import opened Runs
  import opened Access
  import opened SerialService
  import opened Concurrency

  /** The call was permitted on the row its check saw, and that decision was settled. */
  predicate Sure(e: Entry) { e.seen.Some? && Settled(e.seen.value.row, e.op) }

  /** A sure call that got through was permitted on the state it was applied to, whatever anyone else did. */
  lemma SureCallIsPermitted(db: Tables, log: seq<Entry>, n: nat)
    requires AnswersAgree(db, log) && ChecksAreTrue(db, log) && n < |log| && Sure(log[n]) && log[n].answer.Ok?
    ensures log[n].ref in Serial(db, log[..n]) && Permitted(Serial(db, log[..n])[log[n].ref].row, log[n].op)
  {
    var e, init := log[n], log[..n];
    var m := e.seen.value.moment;
    AnswerAt(db, log, n);
    CheckAt(db, log, n);
    AnswersPrefix(db, log, n);
    SerialKeepsKeys(db, init[..m]);
    SerialIsARun(db, init, e.ref, m);
    SettledDecisionStands(Serial(db, init[..m])[e.ref], e.op, OpsOn(init[m..], e.ref));
  }

  /** After the first `n` calls the ticket belongs to `owner`. */
  ghost predicate Owns(db: Tables, log: seq<Entry>, n: nat, ref: string, owner: User)
    requires n <= |log|
  {
    ref in Serial(db, log[..n]) && Serial(db, log[..n])[ref].row.assignee == Some(owner)
  }

  /**
   * The call that passes a ticket directly from one person to another was made by a supervisor, unless its check saw
   * a row the old owner did not have yet, and it named no version, or a later one. Nothing is asked of other calls.
   */
  lemma HandoversAreSafe(s0: System, ms: seq<Move>, ref: string, n: nat, a: User, b: User)
    requires Initial(s0) && Playable(s0, ms) && n < |Exec(s0, ms).log| && a != b
    requires Owns(s0.db, Exec(s0, ms).log, n, ref, a) && Owns(s0.db, Exec(s0, ms).log, n + 1, ref, b)
    ensures var e := Exec(s0, ms).log[n];
      && e.ref == ref && e.answer.Ok?
      && (Sure(e) && Identified(e.op) ==> e.op.actor.role == Supervisor)
      && (e.seen.Some? && Identified(e.op) && e.op.actor.role != Supervisor ==>
            && e.seen.value.row.assignee != Some(a)
            && !(e.op.expected.Some? && e.op.expected.value <= e.seen.value.row.version))
  {
    EveryStateKeepsInv(s0, ms);
    var log := Exec(s0, ms).log;
    NextMoment(s0.db, log, n);
    AnswerAt(s0.db, log, n);
    if log[n].seen.Some? && Identified(log[n].op) {
      CheckAt(s0.db, log, n);
      HandoverWasNotPermitted(Serial(s0.db, log[..n])[ref], log[n].op, a, b);
      if log[n].seen.value.row.assignee == Some(a) {
        DecisionDependsOnOwner(log[n].seen.value.row, Serial(s0.db, log[..n])[ref].row, log[n].op);
      }
      if Sure(log[n]) { SureCallIsPermitted(s0.db, log, n); }
    }
  }

  /** On the row it is applied to, nobody but a supervisor may pass a ticket on. */
  lemma HandoverWasNotPermitted(t: Ticket, op: Op, a: User, b: User)
    requires Apply(t, op).Ok? && Identified(op) && a != b
    requires t.row.assignee == Some(a) && Commit(t, op).row.assignee == Some(b)
    ensures Permitted(t.row, op) ==> op.actor.role == Supervisor
    ensures !op.command.ChangePriority? && !op.command.AddComment?
  {
    if Permitted(t.row, op) && op.actor.role == Agent {
      AgentsOnlyTakeOrRelease(t, op);
    }
  }

  /** An event was recorded by one of the successful calls on its ticket. */
  lemma {:induction false} RecordedBy(db: Tables, log: seq<Entry>, ref: string, e: Event) returns (n: nat)
    requires AnswersAgree(db, log) && ref in db && ref in Serial(db, log)
    requires e in Serial(db, log)[ref].events && e !in db[ref].events
    ensures n < |log| && log[n].ref == ref && log[n].answer.Ok?
    ensures ref in Serial(db, log[..n]) && e in EventsFor(Serial(db, log[..n])[ref].row, log[n].op)
  {
    var init, last := log[..|log| - 1], log[|log| - 1];
    SerialKeepsKeys(db, init);
    if e in Serial(db, init)[ref].events {
      n := RecordedBy(db, init, ref, e);
      assert init[..n] == log[..n];
    } else {
      n := |log| - 1;
    }
  }

  /** An agent's ASSIGNED event was recorded by that agent's call, and if that was sure it claimed a free ticket. */
  lemma AgentsClaimForThemselves(s0: System, ms: seq<Move>, ref: string, e: Event) returns (n: nat)
    requires Initial(s0) && Playable(s0, ms) && ref in s0.db && ref in Exec(s0, ms).db
    requires e in Exec(s0, ms).db[ref].events && e !in s0.db[ref].events
    requires e.kind == Assigned && e.actor.Some? && e.actor.value.role == Agent
    ensures var log := Exec(s0, ms).log;
      && n < |log| && log[n].ref == ref && log[n].answer.Ok? && log[n].op.actor == e.actor.value
      && ref in Serial(s0.db, log[..n]) && e in EventsFor(Serial(s0.db, log[..n])[ref].row, log[n].op)
      && (Sure(log[n]) && Identified(log[n].op) ==>
            && e.newValue == e.actor.value.name && e.oldValue == ""
            && Serial(s0.db, log[..n])[ref].row.assignee == None)
  {
    EveryStateKeepsInv(s0, ms);
    var log := Exec(s0, ms).log;
    n := RecordedBy(s0.db, log, ref, e);
    var t := Serial(s0.db, log[..n])[ref];
    AnswerAt(s0.db, log, n);
    EventsForKinds(t.row, log[n].op);
    if Sure(log[n]) && Identified(log[n].op) {
      SureCallIsPermitted(s0.db, log, n);
      AgentsOnlyTakeOrRelease(t, log[n].op);
    }
  }

  lemma LeftBetween(db: Tables, log: seq<Entry>, i: nat, j: nat, ref: string, owner: User) returns (n: nat)
    requires i <= j <= |log| && Owns(db, log, i, ref, owner) && !Owns(db, log, j, ref, owner)
    ensures i <= n < j && Owns(db, log, n, ref, owner) && !Owns(db, log, n + 1, ref, owner)
  {
    n := LastBefore((m: nat) => m <= |log| && Owns(db, log, m, ref, owner), i, j);
  }

  lemma EventsGrow(db: Tables, log: seq<Entry>, ref: string, i: nat, j: nat)
    requires AnswersAgree(db, log) && ref in db && i <= j <= |log|
    ensures ref in Serial(db, log[..i]) && ref in Serial(db, log[..j])
    ensures Serial(db, log[..i])[ref].events <= Serial(db, log[..j])[ref].events
  {
    AnswersPrefix(db, log, j);
    SerialIsARun(db, log[..j], ref, i);
    assert log[..j][..i] == log[..i];
    VersionNeverFalls(Serial(db, log[..i])[ref], OpsOn(log[..j][i..], ref));
  }

  /** A sure call by an agent takes a ticket from its owner only as that owner's release. */
  lemma SureLeavingIsARelease(db: Tables, log: seq<Entry>, n: nat, ref: string, owner: User) returns (e: Event)
    requires AnswersAgree(db, log) && ChecksAreTrue(db, log) && n < |log|
    requires Owns(db, log, n, ref, owner) && !Owns(db, log, n + 1, ref, owner)
    requires Sure(log[n]) && Identified(log[n].op) && log[n].op.actor.role == Agent
    ensures log[n].ref == ref && log[n].answer.Ok? && ref in Serial(db, log[..n]) && ref in Serial(db, log[..n + 1])
    ensures e in EventsFor(Serial(db, log[..n])[ref].row, log[n].op) && Releases(e, owner)
    ensures Serial(db, log[..n + 1])[ref].events ==
      Serial(db, log[..n])[ref].events + EventsFor(Serial(db, log[..n])[ref].row, log[n].op)
  {
    NextMoment(db, log, n);
    AnswerAt(db, log, n);
    SureCallIsPermitted(db, log, n);
    e := LeavingIsARelease(Serial(db, log[..n])[ref], log[n].op, owner);
  }

  /**
   * A ticket that is no longer its owner's was taken away by one call on it; if that was a sure call of an agent,
   * the owner's own UNASSIGNED event lies between.
   */
  lemma OwnersAreNotDispossessed(s0: System, ms: seq<Move>, ref: string, i: nat, j: nat, owner: User) returns (n: nat)
    requires Initial(s0) && Playable(s0, ms) && ref in s0.db && i <= j <= |Exec(s0, ms).log|
    requires Owns(s0.db, Exec(s0, ms).log, i, ref, owner) && !Owns(s0.db, Exec(s0, ms).log, j, ref, owner)
    ensures var log := Exec(s0, ms).log;
      && i <= n < j && log[n].ref == ref && log[n].answer.Ok?
      && Owns(s0.db, log, n, ref, owner) && !Owns(s0.db, log, n + 1, ref, owner)
      && ref in Serial(s0.db, log[..i]) && ref in Serial(s0.db, log[..j])
      && var before, after := Serial(s0.db, log[..i])[ref].events, Serial(s0.db, log[..j])[ref].events;
      && before <= after
      && (Sure(log[n]) && Identified(log[n].op) && log[n].op.actor.role == Agent ==>
            exists e | e in after[|before|..] :: Releases(e, owner))
  {
    EveryStateKeepsInv(s0, ms);
    var log := Exec(s0, ms).log;
    n := LeftBetween(s0.db, log, i, j, ref, owner);
    NextMoment(s0.db, log, n);
    AnswerAt(s0.db, log, n);
    SerialKeepsKeys(s0.db, log[..n + 1]);
    EventsGrow(s0.db, log, ref, i, j);
    if Sure(log[n]) && Identified(log[n].op) && log[n].op.actor.role == Agent {
      var e := SureLeavingIsARelease(s0.db, log, n, ref, owner);
      EventsGrow(s0.db, log, ref, i, n);
      EventsGrow(s0.db, log, ref, n + 1, j);
      NewInTheMiddle(
        Serial(s0.db, log[..i])[ref].events, Serial(s0.db, log[..n])[ref].events,
        EventsFor(Serial(s0.db, log[..n])[ref].row, log[n].op), Serial(s0.db, log[..j])[ref].events, e);
    }
  }

  /** Every successful call on the ticket was sure, and named users by their public id. */
  predicate AllSure(log: seq<Entry>, ref: string) {
    forall n | 0 <= n < |log| && log[n].ref == ref && log[n].answer.Ok? :: Sure(log[n]) && Identified(log[n].op)
  }

  lemma {:induction false} SureRunIsPermitted(db: Tables, log: seq<Entry>, ref: string)
    requires AnswersAgree(db, log) && ChecksAreTrue(db, log) && ref in db && AllSure(log, ref)
    ensures PermittedRun(db[ref], OpsOn(log, ref))
  {
    if log != [] {
      var init, last := log[..|log| - 1], log[|log| - 1];
      SureRunIsPermitted(db, init, ref);
      SerialIsARun(db, init, ref, 0);
      assert init[0..] == init && init[..0] == [];
      if last.ref == ref && last.answer.Ok? {
        SureCallIsPermitted(db, log, |log| - 1);
        PermittedAppend(db[ref], OpsOn(init, ref), last.op);
      } else {
        assert OpsOn(log, ref) == OpsOn(init, ref);
      }
    }
  }

  /** So the life of a ticket on which only sure calls got through is a permitted run, and all that holds of those. */
  lemma SureCallsMakeAPermittedRun(s0: System, ms: seq<Move>, ref: string)
    requires Initial(s0) && Playable(s0, ms) && ref in s0.db && AllSure(Exec(s0, ms).log, ref)
    ensures var s := Exec(s0, ms);
      && ref in s.db && s.db[ref] == Run(s0.db[ref], OpsOn(s.log, ref)) && PermittedRun(s0.db[ref], OpsOn(s.log, ref))
  {
    EveryStateKeepsInv(s0, ms);
    CommittedTicketIsARun(s0, ms, ref);
    SureRunIsPermitted(s0.db, Exec(s0, ms).log, ref);
  }
}
