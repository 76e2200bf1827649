/**
 * When a decision made on an unlocked read goes stale before the write: whole requests as moves of the system, and
 * exactly which requests can be overtaken between their check and their lock.
 */
module Staleness {
  import opened Wrappers
  import opened Records
  import opened Workflow
  import opened Runs
  import opened Chronicle
  import opened Access
  import opened Transaction
  import opened SerialService
  import opened Concurrency

  lemma {:induction false} PlayOn(s0: System, a: seq<Move>, b: seq<Move>)
    requires Playable(s0, a) && Playable(Exec(s0, a), b)
    ensures Playable(s0, a + b) && Exec(s0, a + b) == Exec(Exec(s0, a), b)
  {
    if b == [] {
      assert a + b == a;
    } else {
      assert (a + b)[..|a + b| - 1] == a + b[..|b| - 1];
      PlayOn(s0, a, b[..|b| - 1]);
    }
  }

  lemma PlayOne(s: System, m: Move)
    requires Enabled(s, m)
    ensures Playable(s, [m]) && Exec(s, [m]) == After(s, m)
  {
    assert [m][..0] == [];
    assert Playable(s, []) && Exec(s, []) == s;
  }

  function Advances(id: nat, k: nat): seq<Move> { seq(k, _ => Advance(id)) }

  /** The system after a running request has taken its first `k` steps. */
  function Advanced(s: System, id: nat, k: nat): System
    requires id in s.txs && s.txs[id].phase.Running? && k <= 7
  {
    var tx := s.txs[id];
    s.(txs := s.txs[id := tx.(phase := Running(k, Ticks(tx.op, tx.phase.work, k)))],
       now := if k == 0 then s.now else tx.op.w[k - 1])
  }

  lemma AdvanceOnce(s: System, id: nat, k: nat)
    requires id in s.txs && s.txs[id].phase.Running? && 1 <= k <= 7 && Follows(s.now, s.txs[id].op.w[0])
    ensures Enabled(Advanced(s, id, k - 1), Advance(id))
    ensures After(Advanced(s, id, k - 1), Advance(id)) == Advanced(s, id, k)
  {
    var tx, before := s.txs[id], Advanced(s, id, k - 1);
    var now: Tx := tx.(phase := Running(k, Ticks(tx.op, tx.phase.work, k)));
    assert Follows(before.now, tx.op.w[k - 1]);
    assert Ticked(before.txs[id]) == now;
    assert before.txs[id := now] == s.txs[id := now];
  }

  lemma {:induction false} PlayAdvances(s: System, id: nat, k: nat)
    requires id in s.txs && s.txs[id].phase.Running? && s.txs[id].phase.k == 0 && k <= 7
    requires Follows(s.now, s.txs[id].op.w[0])
    ensures Playable(s, Advances(id, k)) && Exec(s, Advances(id, k)) == Advanced(s, id, k)
  {
    if k == 0 {
      assert Advances(id, 0) == [];
      assert s.txs[id := s.txs[id]] == s.txs;
    } else {
      PlayAdvances(s, id, k - 1);
      assert Advances(id, k)[..k - 1] == Advances(id, k - 1) && Advances(id, k)[k - 1] == Advance(id);
      AdvanceOnce(s, id, k);
    }
  }

  /** The moves that take a waiting request through lock, guards and steps to its commit. */
  function Serving(id: nat): seq<Move> { [Lock(id)] + [Check(id)] + Advances(id, 7) + [Finish(id)] }

  /** The system after a waiting request was served without a break. */
  function Served(s: System, id: nat): System
    requires id in s.txs && s.txs[id].ref in s.db
  {
    var tx := s.txs[id];
    s.(db := Stored(s.db, tx.ref, tx.op), txs := s.txs - {id}, now := tx.op.w[6],
       log := s.log + [EntryOf(tx, Serve(s.db, tx.ref, tx.op))])
  }

  /** A waiting request whose ticket is free and whose guards will let it through. */
  predicate Ready(s: System, id: nat) {
    && id in s.txs && s.txs[id].phase.Waiting? && s.txs[id].ref in s.db && s.txs[id].ref !in s.locks
    && Refusal(s.db[s.txs[id].ref].row, s.txs[id].op) == None
    && Follows(s.now, s.txs[id].op.w[0])
    && forall r | r in s.locks :: s.locks[r] != id
  }

  /** Past the lock and the guards. */
  function Begun(s: System, id: nat): System
    requires Ready(s, id)
  {
    var tx := s.txs[id];
    s.(locks := s.locks[tx.ref := id], txs := s.txs[id := tx.(phase := Running(0, Load(s.db[tx.ref])))])
  }

  lemma PlayBegin(s: System, id: nat)
    requires Ready(s, id)
    ensures Playable(s, [Lock(id)] + [Check(id)]) && Exec(s, [Lock(id)] + [Check(id)]) == Begun(s, id)
  {
    var tx := s.txs[id];
    var locked := After(s, Lock(id));
    PlayOne(s, Lock(id));
    PlayOne(locked, Check(id));
    PlayOn(s, [Lock(id)], [Check(id)]);
    assert After(locked, Check(id)).txs == s.txs[id := tx.(phase := Running(0, Load(s.db[tx.ref])))];
  }

  lemma FinishServes(s: System, id: nat)
    requires Ready(s, id)
    ensures Enabled(Advanced(Begun(s, id), id, 7), Finish(id))
    ensures After(Advanced(Begun(s, id), id, 7), Finish(id)) == Served(s, id)
  {
    var tx, last := s.txs[id], Advanced(Begun(s, id), id, 7);
    StepsAddUp(s.db[tx.ref], tx.op);
    assert last.txs - {id} == s.txs - {id};
    assert Freed(last.locks, id) == s.locks;
    assert last.txs[id].phase.work.view == Serve(s.db, tx.ref, tx.op).value;
  }

  lemma PlayServing(s: System, id: nat)
    requires Ready(s, id)
    ensures Playable(s, Serving(id)) && Exec(s, Serving(id)) == Served(s, id)
  {
    PlayBegin(s, id);
    PlayAdvances(Begun(s, id), id, 7);
    PlayOn(s, [Lock(id)] + [Check(id)], Advances(id, 7));
    FinishServes(s, id);
    PlayOne(Advanced(Begun(s, id), id, 7), Finish(id));
    PlayOn(s, [Lock(id)] + [Check(id)] + Advances(id, 7), [Finish(id)]);
  }

  /** A new request that is admitted and served without a break. */
  lemma PlayRequest(s: System, id: nat, ref: string, op: Op)
    requires id !in s.txs && ref in s.db && ref !in s.locks && (forall r | r in s.locks :: s.locks[r] != id)
    requires Permitted(s.db[ref].row, op) && op.expected == None
    requires Apply(s.db[ref], op).Ok? && Follows(s.now, op.w[0])
    ensures var ms := [Admit(id, 0, ref, op)] + Serving(id);
      && Playable(s, ms)
      && Exec(s, ms) == s.(
           db := s.db[ref := Commit(s.db[ref], op)], now := op.w[6],
           log := s.log + [Entry(ref, op, Apply(s.db[ref], op), Some(Reading(s.db[ref].row, |s.log|)))])
  {
    var admitted := After(s, Admit(id, 0, ref, op));
    PlayOne(s, Admit(id, 0, ref, op));
    PlayServing(admitted, id);
    PlayOn(s, [Admit(id, 0, ref, op)], Serving(id));
    assert admitted.txs - {id} == s.txs;
  }

  /** Every call of the run is permitted and gets through at its place, and none names a version. */
  ghost predicate GoesThrough(t: Ticket, ops: seq<Op>) {
    ops == [] ||
    var init, last := ops[..|ops| - 1], ops[|ops| - 1];
    && GoesThrough(t, init)
    && last.expected == None && Permitted(Run(t, init).row, last) && Apply(Run(t, init), last).Ok?
  }

  lemma {:induction false} SupervisorsGoThrough(t: Ticket, ops: seq<Op>)
    requires AllSucceed(t, ops)
    requires forall k | 0 <= k < |ops| :: ops[k].expected == None && ops[k].actor.role == Supervisor
    ensures GoesThrough(t, ops)
  {
    if ops != [] {
      var init, last := ops[..|ops| - 1], ops[|ops| - 1];
      SupervisorsGoThrough(t, init);
      SupervisorsMay(Run(t, init).row, last);
    }
  }

  /** `s'` is `s` after the calls `ops` on one ticket, with nothing else moved. */
  ghost predicate RunPlayed(s: System, s': System, ref: string, ops: seq<Op>)
    requires ref in s.db
  {
    && s'.locks == s.locks && s'.txs == s.txs && s'.now == Horizon(s.now, ops)
    && s'.db == s.db[ref := Run(s.db[ref], ops)]
    && |s'.log| == |s.log| + |ops| && s.log <= s'.log
    && forall k | 0 <= k < |ops| :: s'.log[|s.log| + k].op == ops[k]
  }

  lemma RunPlayedOn(s: System, mid: System, ref: string, ops: seq<Op>, e: Entry)
    requires ref in s.db && RunPlayed(s, mid, ref, ops)
    ensures RunPlayed(s, mid.(db := mid.db[ref := Commit(mid.db[ref], e.op)], now := e.op.w[6], log := mid.log + [e]),
                      ref, ops + [e.op])
  {
    var t := s.db[ref];
    RunAppend(t, ops, e.op);
    assert s.db[ref := Run(t, ops)][ref := Run(t, ops + [e.op])] == s.db[ref := Run(t, ops + [e.op])];
  }

  lemma PlayNext(s: System, mid: System, ref: string, ops: seq<Op>, op: Op) returns (ms: seq<Move>)
    requires s.locks == map[] && s.txs.Keys <= {0} && ref in s.db && RunPlayed(s, mid, ref, ops)
    requires Permitted(Run(s.db[ref], ops).row, op) && op.expected == None
    requires Apply(Run(s.db[ref], ops), op).Ok? && Follows(Horizon(s.now, ops), op.w[0])
    ensures Playable(mid, ms) && RunPlayed(s, Exec(mid, ms), ref, ops + [op])
  {
    assert 1 !in mid.txs;
    PlayRequest(mid, 1, ref, op);
    ms := [Admit(1, 0, ref, op)] + Serving(1);
    RunPlayedOn(s, mid, ref, ops, Entry(ref, op, Apply(mid.db[ref], op), Some(Reading(mid.db[ref].row, |mid.log|))));
  }

  /** Requests served one after the other, each admitted and served without a break. */
  lemma {:induction false} PlayRun(s: System, ref: string, ops: seq<Op>) returns (ms: seq<Move>)
    requires s.locks == map[] && s.txs.Keys <= {0} && ref in s.db && Timely(s.now, ops) && GoesThrough(s.db[ref], ops)
    ensures Playable(s, ms) && RunPlayed(s, Exec(s, ms), ref, ops)
  {
    if ops == [] {
      ms := [];
      assert s.db[ref := s.db[ref]] == s.db;
    } else {
      var k := |ops| - 1;
      TimelyPrefix(s.now, ops, k);
      var before := PlayRun(s, ref, ops[..k]);
      var more := PlayNext(s, Exec(s, before), ref, ops[..k], ops[k]);
      assert ops[..k] + [ops[k]] == ops;
      PlayOn(s, before, more);
      ms := before + more;
    }
  }

  /** Readings for other calls between now and a later call. */
  ghost predicate Room(now: Stamp, ws: seq<Readings>, w: Readings) {
    && ws != [] && Follows(now, ws[0][0]) && Follows(ws[|ws| - 1][6], w[0])
    && forall a, b | 0 <= a < b < |ws| :: Follows(ws[a][6], ws[b][0])
  }

  /** The last call of the log went through its check, succeeded, and was not permitted where it was applied. */
  ghost predicate EndsStale(db: Tables, log: seq<Entry>, ref: string, op: Op) {
    log != [] &&
    var n := |log| - 1;
    && log[n].ref == ref && log[n].op == op && log[n].seen.Some? && log[n].answer.Ok?
    && ref in Serial(db, log[..n]) && !Permitted(Serial(db, log[..n])[ref].row, op)
  }

  lemma BusyGoesThrough(t: Ticket, ops: seq<Op>, boss: User, ws: seq<Readings>, now: Stamp, w: Readings)
    requires Busy(t, ops, boss, ws) && boss.role == Supervisor && Room(now, ws, w)
    ensures GoesThrough(t, ops) && Timely(now, ops) && Follows(Horizon(now, ops), w[0])
  {
    SupervisorsGoThrough(t, ops);
  }

  /** The request that is admitted first: it waits while the others are served. */
  function Admitted(s0: System, ref: string, op: Op): System
    requires ref in s0.db
  {
    s0.(txs := s0.txs[0 := Tx(ref, op, None, Some(Reading(s0.db[ref].row, |s0.log|)), Waiting)])
  }

  lemma PlayAdmitted(s0: System, ref: string, op: Op)
    requires Initial(s0) && ref in s0.db && Permitted(s0.db[ref].row, op)
    ensures Playable(s0, [Admit(0, 0, ref, op)]) && Exec(s0, [Admit(0, 0, ref, op)]) == Admitted(s0, ref, op)
  {
    PlayOne(s0, Admit(0, 0, ref, op));
  }

  /** The waiting request, served on a row on which it is not permitted. */
  lemma PlayStaleRequest(s0: System, mid: System, ref: string, op: Op, ops: seq<Op>)
    requires Initial(s0) && Inv(s0, mid) && ref in s0.db && RunPlayed(Admitted(s0, ref, op), mid, ref, ops)
    requires Apply(Run(s0.db[ref], ops), op).Ok? && !Permitted(Run(s0.db[ref], ops).row, op)
    requires Follows(Horizon(s0.now, ops), op.w[0])
    ensures Playable(mid, Serving(0)) && EndsStale(s0.db, Exec(mid, Serving(0)).log, ref, op)
    ensures var log := Exec(mid, Serving(0)).log;
      |log| == |ops| + 1 && forall n | 0 <= n < |ops| :: log[n].op == ops[n]
  {
    WaiterIsReady(s0, mid, ref, op, ops);
    PlayServing(mid, 0);
    var e := EntryOf(mid.txs[0], Serve(mid.db, ref, op));
    LogOfRunPlayed(Admitted(s0, ref, op), mid, ref, ops, e);
    assert (mid.log + [e])[..|mid.log|] == mid.log;
  }

  lemma WaiterIsReady(s0: System, mid: System, ref: string, op: Op, ops: seq<Op>)
    requires Initial(s0) && ref in s0.db && RunPlayed(Admitted(s0, ref, op), mid, ref, ops)
    requires Apply(Run(s0.db[ref], ops), op).Ok? && Follows(Horizon(s0.now, ops), op.w[0])
    ensures Ready(mid, 0) && mid.txs[0] == Admitted(s0, ref, op).txs[0] && mid.db[ref] == Run(s0.db[ref], ops)
  {
  }

  lemma LogOfRunPlayed(s: System, mid: System, ref: string, ops: seq<Op>, e: Entry)
    requires s.log == [] && ref in s.db && RunPlayed(s, mid, ref, ops)
    ensures |mid.log + [e]| == |ops| + 1 && forall n | 0 <= n < |ops| :: (mid.log + [e])[n].op == ops[n]
  {
    forall n | 0 <= n < |ops|
      ensures (mid.log + [e])[n].op == ops[n]
    {
      assert mid.log[|s.log| + n].op == ops[n];
    }
  }

  /** The request is admitted, and then other calls are served. */
  lemma PlayAdmittedThenRun(s0: System, ref: string, op: Op, ops: seq<Op>) returns (ms: seq<Move>)
    requires Initial(s0) && ref in s0.db && Permitted(s0.db[ref].row, op)
    requires Timely(s0.now, ops) && GoesThrough(s0.db[ref], ops)
    ensures Playable(s0, ms) && Inv(s0, Exec(s0, ms)) && RunPlayed(Admitted(s0, ref, op), Exec(s0, ms), ref, ops)
  {
    PlayAdmitted(s0, ref, op);
    var between := PlayRun(Admitted(s0, ref, op), ref, ops);
    PlayOn(s0, [Admit(0, 0, ref, op)], between);
    ms := [Admit(0, 0, ref, op)] + between;
    EveryStateKeepsInv(s0, ms);
  }

  /**
   * How a decision goes stale: the request is admitted; before it takes the lock, any supervisor gets in its way,
   * with permitted calls; the request then gets the lock, passes the guards and is committed on a row on which it
   * is not permitted.
   */
  lemma StaleWriteIsPlayable(s0: System, ref: string, op: Op, boss: User, ws: seq<Readings>) returns (ms: seq<Move>)
    requires Initial(s0) && ref in s0.db && boss.role == Supervisor
    requires Permitted(s0.db[ref].row, op) && CanBeOvertaken(s0.db[ref].row, op)
    requires |ws| == CallsNeeded(s0.db[ref].row, op) && Room(s0.now, ws, op.w)
    ensures Playable(s0, ms) && EndsStale(s0.db, Exec(s0, ms).log, ref, op)
    ensures forall n | 0 <= n < |Exec(s0, ms).log| - 1 :: Exec(s0, ms).log[n].op.actor == boss
  {
    var ops := UnsettledDecisionCanBeOvertaken(s0.db[ref], op, boss, ws);
    BusyGoesThrough(s0.db[ref], ops, boss, ws, s0.now, op.w);
    var before := PlayAdmittedThenRun(s0, ref, op, ops);
    PlayStaleRequest(s0, Exec(s0, before), ref, op, ops);
    PlayOn(s0, before, Serving(0));
    ms := before + Serving(0);
  }

  /** Every successful such request that went through its check was permitted where it was applied. */
  ghost predicate AppliedAsPermitted(db: Tables, log: seq<Entry>, ref: string, op: Op) {
    forall n | 0 <= n < |log| && log[n].ref == ref && log[n].op == op && log[n].seen.Some? && log[n].answer.Ok? ::
      ref in Serial(db, log[..n]) && Permitted(Serial(db, log[..n])[ref].row, op)
  }

  ghost predicate AlwaysAppliedAsPermitted(s0: System, ref: string, op: Op) {
    forall ms: seq<Move> | Playable(s0, ms) :: AppliedAsPermitted(s0.db, Exec(s0, ms).log, ref, op)
  }

  lemma UnovertakenRequestsAreApplied(s0: System, ms: seq<Move>, ref: string, op: Op)
    requires Initial(s0) && Playable(s0, ms) && ref in s0.db
    requires Permitted(s0.db[ref].row, op) && !CanBeOvertaken(s0.db[ref].row, op)
    ensures AppliedAsPermitted(s0.db, Exec(s0, ms).log, ref, op)
  {
    EveryStateKeepsInv(s0, ms);
    var log := Exec(s0, ms).log;
    forall n | 0 <= n < |log| && log[n].ref == ref && log[n].op == op && log[n].seen.Some? && log[n].answer.Ok?
      ensures ref in Serial(s0.db, log[..n]) && Permitted(Serial(s0.db, log[..n])[ref].row, op)
    {
      AnswerAt(s0.db, log, n);
      AnswersPrefix(s0.db, log, n);
      SerialIsARun(s0.db, log[..n], ref, 0);
      assert log[..n][..0] == [];
      UnovertakenDecisionStands(s0.db[ref], op, OpsOn(log[..n][0..], ref));
    }
  }

  /**
   * Exactly which requests are safe from the unlocked gap, over every interleaving. Where a request can be overtaken,
   * there has to be time for the calls that overtake it.
   */
  lemma AppliedAsPermittedIff(s0: System, ref: string, op: Op, ws: seq<Readings>)
    requires Initial(s0) && ref in s0.db && Permitted(s0.db[ref].row, op)
    requires CanBeOvertaken(s0.db[ref].row, op) ==>
      |ws| == CallsNeeded(s0.db[ref].row, op) && Room(s0.now, ws, op.w)
    ensures AlwaysAppliedAsPermitted(s0, ref, op) <==> !CanBeOvertaken(s0.db[ref].row, op)
  {
    if CanBeOvertaken(s0.db[ref].row, op) {
      var ms := StaleWriteIsPlayable(s0, ref, op, User(0, "", Supervisor, ""), ws);
    } else {
      forall ms: seq<Move> | Playable(s0, ms)
        ensures AppliedAsPermitted(s0.db, Exec(s0, ms).log, ref, op)
      {
        UnovertakenRequestsAreApplied(s0, ms, ref, op);
      }
    }
  }
}
