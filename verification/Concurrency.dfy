/**
 * Any number of requests over any number of tickets, interleaved step by step: unlocked reads, the permission
 * check, the row lock, the guards, the steps of the call, commit or abort. The interleaving is proved to answer
 * and store exactly what the atomic service does one call at a time, in the order the calls finish.
 */
module Concurrency {
  import opened Wrappers
  import opened Records
  import opened Workflow
  import opened Runs
  import opened Chronicle
  import opened Access
  import opened Transaction
  import opened SerialService

  // ---- finished calls

  /** What an unlocked read saw, and how many calls had finished at that moment. */
  datatype Reading = Reading(row: Row, moment: nat)

  /** A finished call: what it was, what it answered, and what its permission check saw, if it went through one. */
  datatype Entry = Entry(ref: string, op: Op, answer: Answer<Ticket>, seen: Option<Reading>)

  /** The tables after the finished calls, run one by one. */
  function Serial(db: Tables, log: seq<Entry>): Tables {
    if log == [] then db
    else Stored(Serial(db, log[..|log| - 1]), log[|log| - 1].ref, log[|log| - 1].op)
  }

  /** Every finished call answered what the serial service answers at its place in the log. */
  ghost predicate AnswersAgree(db: Tables, log: seq<Entry>) {
    log == [] ||
    var init, last := log[..|log| - 1], log[|log| - 1];
    AnswersAgree(db, init) && last.answer == Serve(Serial(db, init), last.ref, last.op)
  }

  /** The successful calls on one ticket, in commit order. */
  function OpsOn(log: seq<Entry>, ref: string): seq<Op> {
    if log == [] then []
    else
      var last := log[|log| - 1];
      OpsOn(log[..|log| - 1], ref) + (if last.ref == ref && last.answer.Ok? then [last.op] else [])
  }

  // ---- the concurrent system

  datatype Phase = Waiting | Holding(work: Work) | Running(k: nat, work: Work)

  /** A request: the copy its client holds, if it echoes that copy's version; and the row its permission check saw. */
  datatype Tx = Tx(ref: string, op: Op, copy: Option<Reading>, seen: Option<Reading>, phase: Phase)

  datatype System = System(
    db: Tables,
    locks: map<string, nat>,
    txs: map<nat, Tx>,
    fetched: map<nat, (string, Reading)>,
    now: Stamp,
    log: seq<Entry>)

  datatype Move =
    | Fetch(client: nat, ref: string)
    | Admit(id: nat, client: nat, ref: string, op: Op)
    | Call(id: nat, ref: string, op: Op)
    | Lock(id: nat)
    | Check(id: nat)
    | Advance(id: nat)
    | Finish(id: nat)
    | Abort(id: nat)

  predicate Enabled(s: System, m: Move) {
    match m
    case Fetch(_, ref) => ref in s.db
    case Admit(id, _, ref, op) => id !in s.txs && ref in s.db && Permitted(s.db[ref].row, op)
    case Call(id, _, _) => id !in s.txs
    case Lock(id) => id in s.txs && s.txs[id].phase.Waiting? && s.txs[id].ref !in s.locks
    case Check(id) => id in s.txs && s.txs[id].phase.Holding?
    case Advance(id) =>
      id in s.txs && s.txs[id].phase.Running? && s.txs[id].phase.k < 7
      && Follows(s.now, s.txs[id].op.w[s.txs[id].phase.k])
    case Finish(id) => id in s.txs && s.txs[id].phase.Running? && s.txs[id].phase.k == 7
    case Abort(id) => id in s.txs
  }

  function Freed(locks: map<string, nat>, id: nat): map<string, nat> {
    map r | r in locks && locks[r] != id :: locks[r]
  }

  /** The next step of a call. */
  function Ticked(tx: Tx): Tx
    requires tx.phase.Running?
  {
    tx.(phase := Running(tx.phase.k + 1, Tick(tx.op, tx.phase.k, tx.phase.work)))
  }

  function EntryOf(tx: Tx, answer: Answer<Ticket>): Entry { Entry(tx.ref, tx.op, answer, tx.seen) }

  /** The request is over: its locks go, and what it answered is recorded. */
  function Over(s: System, id: nat, answer: Answer<Ticket>): System
    requires id in s.txs
  {
    var tx := s.txs[id];
    s.(txs := s.txs - {id}, locks := Freed(s.locks, id),
       log := s.log + [EntryOf(tx, answer)])
  }

  /** The copy a request relies on: the one its client fetched, when the `If-Match` is that copy's version. */
  function CopyOf(s: System, client: nat, ref: string, op: Op): Option<Reading> {
    if client in s.fetched && s.fetched[client].0 == ref
       && op.expected == Some(s.fetched[client].1.row.version)
    then Some(s.fetched[client].1) else None
  }

  function After(s: System, m: Move): System
    requires Enabled(s, m)
  {
    match m
    case Fetch(client, ref) =>
      s.(fetched := s.fetched[client := (ref, Reading(s.db[ref].row, |s.log|))])
    case Admit(id, client, ref, op) =>
      s.(txs := s.txs[id := Tx(ref, op, CopyOf(s, client, ref, op), Some(Reading(s.db[ref].row, |s.log|)), Waiting)])
    case Call(id, ref, op) => s.(txs := s.txs[id := Tx(ref, op, None, None, Waiting)])
    case Lock(id) =>
      var tx := s.txs[id];
      if tx.ref in s.db
      then s.(locks := s.locks[tx.ref := id], txs := s.txs[id := tx.(phase := Holding(Load(s.db[tx.ref])))])
      else Over(s, id, Err(NotFound))
    case Check(id) =>
      var tx := s.txs[id];
      (match Refusal(tx.phase.work.read, tx.op)
       case Some(e) => Over(s, id, Err(e))
       case None => s.(txs := s.txs[id := tx.(phase := Running(0, tx.phase.work))]))
    case Advance(id) =>
      s.(txs := s.txs[id := Ticked(s.txs[id])], now := s.txs[id].op.w[s.txs[id].phase.k])
    case Finish(id) =>
      var tx := s.txs[id];
      Over(s.(db := s.db[tx.ref := tx.phase.work.view]), id, Ok(tx.phase.work.view))
    case Abort(id) => s.(txs := s.txs - {id}, locks := Freed(s.locks, id))
  }

  predicate Initial(s: System) {
    s.locks == map[] && s.txs == map[] && s.fetched == map[] && s.log == []
  }

  /** The state after a sequence of moves. */
  ghost function Exec(s0: System, ms: seq<Move>): System
    requires Playable(s0, ms)
    decreases ms, 1
  {
    if ms == [] then s0 else After(Exec(s0, ms[..|ms| - 1]), ms[|ms| - 1])
  }

  ghost predicate Playable(s0: System, ms: seq<Move>)
    decreases ms, 0
  {
    ms == [] || (Playable(s0, ms[..|ms| - 1]) && Enabled(Exec(s0, ms[..|ms| - 1]), ms[|ms| - 1]))
  }

  // ---- the invariant

  /** A reading is the committed row of its moment. */
  ghost predicate TrueReading(db0: Tables, log: seq<Entry>, ref: string, r: Reading) {
    r.moment <= |log| && ref in Serial(db0, log[..r.moment]) && r.row == Serial(db0, log[..r.moment])[ref].row
  }

  ghost predicate ReadsTruly(db0: Tables, log: seq<Entry>, tx: Tx) {
    && (tx.seen.Some? ==> TrueReading(db0, log, tx.ref, tx.seen.value) && Permitted(tx.seen.value.row, tx.op))
    && (tx.copy.Some? ==>
          && tx.seen.Some? && tx.copy.value.moment <= tx.seen.value.moment
          && TrueReading(db0, log, tx.ref, tx.copy.value)
          && tx.op.expected == Some(tx.copy.value.row.version))
  }

  /** A request at work holds its ticket's lock, and has done exactly its own steps on the committed ticket. */
  ghost predicate WorksAlone(db: Tables, locks: map<string, nat>, id: nat, tx: Tx) {
    !tx.phase.Waiting? ==>
      && tx.ref in db && tx.ref in locks && locks[tx.ref] == id
      && (tx.phase.Holding? ==> tx.phase.work == Load(db[tx.ref]))
      && (tx.phase.Running? ==>
            && tx.phase.k <= 7 && Refusal(db[tx.ref].row, tx.op) == None
            && tx.phase.work == Ticks(tx.op, Load(db[tx.ref]), tx.phase.k))
  }

  ghost predicate InTime(start: Stamp, log: seq<Entry>, now: Stamp, tx: Tx) {
    tx.phase.Running? && 1 <= tx.phase.k <= 7 ==>
      && Follows(Horizon(start, OpsOn(log, tx.ref)), tx.op.w[0])
      && AtMost(tx.op.w[tx.phase.k - 1], now)
  }

  ghost predicate LocksHeld(locks: map<string, nat>, txs: map<nat, Tx>) {
    forall r | r in locks :: locks[r] in txs && txs[locks[r]].ref == r && !txs[locks[r]].phase.Waiting?
  }

  ghost predicate Clocked(start: Stamp, log: seq<Entry>, now: Stamp) {
    forall ref :: Timely(start, OpsOn(log, ref)) && AtMost(Horizon(start, OpsOn(log, ref)), now)
  }

  /** Every finished call that went through a permission check was permitted on a committed row of an earlier moment. */
  ghost predicate ChecksAreTrue(db0: Tables, log: seq<Entry>) {
    log == [] ||
    var init, last := log[..|log| - 1], log[|log| - 1];
    && ChecksAreTrue(db0, init)
    && (last.seen.Some? ==>
          TrueReading(db0, init, last.ref, last.seen.value) && Permitted(last.seen.value.row, last.op))
  }

  ghost predicate TxInv(db0: Tables, db: Tables, locks: map<string, nat>, log: seq<Entry>, id: nat, tx: Tx) {
    WorksAlone(db, locks, id, tx) && ReadsTruly(db0, log, tx)
  }

  ghost predicate AllTxs(db0: Tables, db: Tables, locks: map<string, nat>, log: seq<Entry>, txs: map<nat, Tx>) {
    forall id | id in txs :: TxInv(db0, db, locks, log, id, txs[id])
  }

  ghost predicate AllInTime(start: Stamp, log: seq<Entry>, now: Stamp, txs: map<nat, Tx>) {
    forall id | id in txs :: InTime(start, log, now, txs[id])
  }

  ghost predicate AllFetched(db0: Tables, log: seq<Entry>, fetched: map<nat, (string, Reading)>) {
    forall c | c in fetched :: TrueReading(db0, log, fetched[c].0, fetched[c].1)
  }

  ghost predicate LogInv(db0: Tables, db: Tables, log: seq<Entry>) {
    db == Serial(db0, log) && AnswersAgree(db0, log) && ChecksAreTrue(db0, log)
  }

  ghost predicate Inv(s0: System, s: System) {
    && LogInv(s0.db, s.db, s.log)
    && Clocked(s0.now, s.log, s.now)
    && LocksHeld(s.locks, s.txs)
    && AllTxs(s0.db, s.db, s.locks, s.log, s.txs)
    && AllInTime(s0.now, s.log, s.now, s.txs)
    && AllFetched(s0.db, s.log, s.fetched)
  }

  // ---- logs and their runs

  lemma SerialAppend(db: Tables, log: seq<Entry>, e: Entry)
    ensures Serial(db, log + [e]) == Stored(Serial(db, log), e.ref, e.op)
    ensures OpsOn(log + [e], e.ref) == OpsOn(log, e.ref) + (if e.answer.Ok? then [e.op] else [])
    ensures forall ref | ref != e.ref :: OpsOn(log + [e], ref) == OpsOn(log, ref)
    ensures forall n | 0 <= n <= |log| :: (log + [e])[..n] == log[..n]
  {
    assert (log + [e])[..|log + [e]| - 1] == log;
  }

  lemma AnswersAppend(db: Tables, log: seq<Entry>, e: Entry)
    requires AnswersAgree(db, log) && e.answer == Serve(Serial(db, log), e.ref, e.op)
    ensures AnswersAgree(db, log + [e])
  {
    assert (log + [e])[..|log + [e]| - 1] == log;
  }

  lemma {:induction false} AnswerAt(db: Tables, log: seq<Entry>, n: nat)
    requires AnswersAgree(db, log) && n < |log|
    ensures log[n].answer == Serve(Serial(db, log[..n]), log[n].ref, log[n].op)
  {
    if n < |log| - 1 {
      AnswerAt(db, log[..|log| - 1], n);
      assert log[..|log| - 1][..n] == log[..n];
    }
  }

  lemma {:induction false} CheckAt(db: Tables, log: seq<Entry>, n: nat)
    requires ChecksAreTrue(db, log) && n < |log| && log[n].seen.Some?
    ensures TrueReading(db, log[..n], log[n].ref, log[n].seen.value) && Permitted(log[n].seen.value.row, log[n].op)
  {
    if n < |log| - 1 {
      CheckAt(db, log[..|log| - 1], n);
      assert log[..|log| - 1][..n] == log[..n];
    }
  }

  lemma {:induction false} SerialKeepsKeys(db: Tables, log: seq<Entry>)
    ensures Serial(db, log).Keys == db.Keys
  {
    if log != [] {
      SerialKeepsKeys(db, log[..|log| - 1]);
    }
  }

  lemma {:induction false} AnswersPrefix(db: Tables, log: seq<Entry>, m: nat)
    requires AnswersAgree(db, log) && m <= |log|
    ensures AnswersAgree(db, log[..m])
  {
    if m < |log| {
      AnswersPrefix(db, log[..|log| - 1], m);
      assert log[..|log| - 1][..m] == log[..m];
    } else {
      assert log[..m] == log;
    }
  }

  /** One more finished call, as the ticket `ref` sees it. */
  lemma OneMoreEntry(db: Tables, log: seq<Entry>, e: Entry, ref: string, t: Ticket, ops: seq<Op>)
    requires ref in Serial(db, log) && Serial(db, log)[ref] == Run(t, ops)
    requires e.answer == Serve(Serial(db, log), e.ref, e.op)
    ensures ref in Serial(db, log + [e])
    ensures Serial(db, log + [e])[ref] == Run(t, ops + (if e.ref == ref && e.answer.Ok? then [e.op] else []))
  {
    SerialAppend(db, log, e);
    if e.ref == ref && e.answer.Ok? {
      RunAppend(t, ops, e.op);
    } else {
      assert ops + [] == ops;
    }
  }

  lemma LastAside(log: seq<Entry>, m: nat)
    requires m < |log|
    ensures var init, last := log[..|log| - 1], log[|log| - 1];
      log == init + [last] && log[..m] == init[..m] && log[m..] == init[m..] + [last]
  {
  }

  /** Between two moments of the log, a ticket lives through a run of the successful calls on it. */
  lemma {:induction false} SerialIsARun(db: Tables, log: seq<Entry>, ref: string, m: nat)
    requires AnswersAgree(db, log) && m <= |log| && ref in db
    ensures ref in Serial(db, log[..m]) && ref in Serial(db, log)
    ensures Serial(db, log)[ref] == Run(Serial(db, log[..m])[ref], OpsOn(log[m..], ref))
  {
    SerialKeepsKeys(db, log[..m]);
    if m == |log| {
      assert log[..m] == log && log[m..] == [];
    } else {
      var init, last := log[..|log| - 1], log[|log| - 1];
      LastAside(log, m);
      AnswersPrefix(db, log, |log| - 1);
      SerialIsARun(db, init, ref, m);
      OneMoreEntry(db, init, last, ref, Serial(db, log[..m])[ref], OpsOn(init[m..], ref));
      SerialAppend(db, init[m..], last);
    }
  }

  /** Two committed rows of one ticket with the same version agree on all but the activity stamp. */
  lemma ReadingsAgree(db: Tables, log: seq<Entry>, ref: string, m: nat)
    requires AnswersAgree(db, log) && m <= |log| && ref in db
    ensures ref in Serial(db, log[..m]) && ref in Serial(db, log)
    ensures var a, b := Serial(db, log[..m])[ref].row, Serial(db, log)[ref].row;
      a.version <= b.version && (a.version == b.version ==> SameButActivity(b, a))
  {
    SerialIsARun(db, log, ref, m);
    VersionNeverFalls(Serial(db, log[..m])[ref], OpsOn(log[m..], ref));
  }

  // ---- each move keeps the invariant

  lemma ReadingKept(db0: Tables, log: seq<Entry>, more: seq<Entry>, ref: string, r: Reading)
    requires TrueReading(db0, log, ref, r)
    ensures TrueReading(db0, log + more, ref, r)
  {
    assert (log + more)[..r.moment] == log[..r.moment];
  }

  lemma ReadingNow(db0: Tables, db: Tables, log: seq<Entry>, ref: string)
    requires db == Serial(db0, log) && ref in db
    ensures TrueReading(db0, log, ref, Reading(db[ref].row, |log|))
  {
    assert log[..|log|] == log;
  }

  /** One request more, or in a new phase. */
  lemma WithTx(s0: System, s: System, id: nat, tx: Tx)
    requires Inv(s0, s)
    requires TxInv(s0.db, s.db, s.locks, s.log, id, tx) && InTime(s0.now, s.log, s.now, tx)
    requires id in s.txs ==> tx.ref == s.txs[id].ref && (tx.phase.Waiting? ==> s.txs[id].phase.Waiting?)
    ensures Inv(s0, s.(txs := s.txs[id := tx]))
  {
  }

  lemma FetchKeeps(s0: System, s: System, m: Move)
    requires Inv(s0, s) && Enabled(s, m) && m.Fetch?
    ensures Inv(s0, After(s, m))
  {
    ReadingNow(s0.db, s.db, s.log, m.ref);
  }

  lemma CopyReadsTruly(s0: System, s: System, client: nat, ref: string, op: Op)
    requires Inv(s0, s) && ref in s.db && Permitted(s.db[ref].row, op)
    ensures ReadsTruly(s0.db, s.log,
      Tx(ref, op, CopyOf(s, client, ref, op), Some(Reading(s.db[ref].row, |s.log|)), Waiting))
  {
    ReadingNow(s0.db, s.db, s.log, ref);
  }

  lemma ArrivalKeeps(s0: System, s: System, m: Move)
    requires Inv(s0, s) && Enabled(s, m) && (m.Admit? || m.Call?)
    ensures Inv(s0, After(s, m))
  {
    if m.Admit? {
      CopyReadsTruly(s0, s, m.client, m.ref, m.op);
    }
    WithTx(s0, s, m.id, After(s, m).txs[m.id]);
  }

  /** Taking a free lock disturbs nobody. */
  lemma LockTaken(s0: System, s: System, id: nat, tx: Tx)
    requires Inv(s0, s) && id in s.txs && s.txs[id].phase.Waiting? && s.txs[id].ref !in s.locks
    requires tx.ref == s.txs[id].ref && tx.phase.Holding?
    ensures AllTxs(s0.db, s.db, s.locks[tx.ref := id], s.log, s.txs)
    ensures LocksHeld(s.locks[tx.ref := id], s.txs[id := tx]) && AllInTime(s0.now, s.log, s.now, s.txs[id := tx])
  {
    forall other | other in s.txs
      ensures TxInv(s0.db, s.db, s.locks[s.txs[id].ref := id], s.log, other, s.txs[other])
    {
      assert TxInv(s0.db, s.db, s.locks, s.log, other, s.txs[other]);
    }
  }

  lemma LockKeeps(s0: System, s: System, m: Move)
    requires Inv(s0, s) && Enabled(s, m) && m.Lock? && s.txs[m.id].ref in s.db
    ensures Inv(s0, After(s, m))
  {
    assert TxInv(s0.db, s.db, s.locks, s.log, m.id, s.txs[m.id]);
    var s', tx := After(s, m), s.txs[m.id].(phase := Holding(Load(s.db[s.txs[m.id].ref])));
    LockTaken(s0, s, m.id, tx);
    assert TxInv(s0.db, s'.db, s'.locks, s'.log, m.id, tx);
    assert s'.txs == s.txs[m.id := tx];
  }

  lemma CheckKeeps(s0: System, s: System, m: Move)
    requires Inv(s0, s) && Enabled(s, m) && m.Check?
    requires Refusal(s.txs[m.id].phase.work.read, s.txs[m.id].op) == None
    ensures Inv(s0, After(s, m))
  {
    var tx := s.txs[m.id];
    assert TxInv(s0.db, s.db, s.locks, s.log, m.id, tx);
    WithTx(s0, s, m.id, tx.(phase := Running(0, tx.phase.work)));
  }

  /** Later is still in time. */
  lemma TimePasses(s0: System, s: System, now: Stamp)
    requires Inv(s0, s) && AtMost(s.now, now)
    ensures Inv(s0, s.(now := now))
  {
    forall ref
      ensures AtMost(Horizon(s0.now, OpsOn(s.log, ref)), now)
    {
      assert AtMost(Horizon(s0.now, OpsOn(s.log, ref)), s.now);
    }
    forall id | id in s.txs
      ensures InTime(s0.now, s.log, now, s.txs[id])
    {
      assert InTime(s0.now, s.log, s.now, s.txs[id]);
    }
  }

  lemma TickKeepsTx(db: Tables, locks: map<string, nat>, start: Stamp, log: seq<Entry>, now: Stamp, id: nat, tx: Tx)
    requires tx.phase.Running? && tx.phase.k < 7 && Follows(now, tx.op.w[tx.phase.k])
    requires WorksAlone(db, locks, id, tx) && InTime(start, log, now, tx)
    requires AtMost(Horizon(start, OpsOn(log, tx.ref)), now)
    ensures WorksAlone(db, locks, id, Ticked(tx)) && InTime(start, log, tx.op.w[tx.phase.k], Ticked(tx))
  {
  }

  /** A request moves on, and with it the clock. */
  lemma MovedOn(s0: System, s: System, id: nat, tx: Tx, now: Stamp)
    requires Inv(s0, s) && AtMost(s.now, now) && id in s.txs && tx.ref == s.txs[id].ref && tx.phase.Running?
    requires WorksAlone(s.db, s.locks, id, tx) && ReadsTruly(s0.db, s.log, tx) && InTime(s0.now, s.log, now, tx)
    ensures Inv(s0, s.(txs := s.txs[id := tx], now := now))
  {
    TimePasses(s0, s, now);
    WithTx(s0, s.(now := now), id, tx);
  }

  lemma ReadyToTick(s0: System, s: System, id: nat)
    requires Inv(s0, s) && id in s.txs
    ensures WorksAlone(s.db, s.locks, id, s.txs[id]) && ReadsTruly(s0.db, s.log, s.txs[id])
    ensures InTime(s0.now, s.log, s.now, s.txs[id]) && AtMost(Horizon(s0.now, OpsOn(s.log, s.txs[id].ref)), s.now)
  {
    assert TxInv(s0.db, s.db, s.locks, s.log, id, s.txs[id]);
  }

  lemma AdvanceKeeps(s0: System, s: System, m: Move)
    requires Inv(s0, s) && Enabled(s, m) && m.Advance?
    ensures Inv(s0, After(s, m))
  {
    var tx := s.txs[m.id];
    ReadyToTick(s0, s, m.id);
    TickKeepsTx(s.db, s.locks, s0.now, s.log, s.now, m.id, tx);
    MovedOn(s0, s, m.id, Ticked(tx), tx.op.w[tx.phase.k]);
  }

  /** Giving up a request's locks disturbs nobody else. */
  lemma LocksFreed(s0: System, s: System, id: nat)
    requires Inv(s0, s) && id in s.txs
    ensures AllTxs(s0.db, s.db, Freed(s.locks, id), s.log, s.txs - {id})
    ensures LocksHeld(Freed(s.locks, id), s.txs - {id})
  {
    forall other | other in s.txs && other != id
      ensures TxInv(s0.db, s.db, Freed(s.locks, id), s.log, other, s.txs[other])
    {
      assert TxInv(s0.db, s.db, s.locks, s.log, other, s.txs[other]);
    }
  }

  lemma AbortKeeps(s0: System, s: System, m: Move)
    requires Inv(s0, s) && Enabled(s, m) && m.Abort?
    ensures Inv(s0, After(s, m))
  {
    LocksFreed(s0, s, m.id);
  }

  /** The version argument: a client's copy, the row the permission check saw and the locked row are one content. */
  lemma LockedRowIsWhatWasRead(s0: System, s: System, id: nat)
    requires Inv(s0, s) && id in s.txs && s.txs[id].phase.Running? && s.txs[id].copy.Some?
    ensures var tx := s.txs[id];
      && tx.seen.Some? && tx.ref in s.db && Settled(tx.seen.value.row, tx.op)
      && SameButActivity(s.db[tx.ref].row, tx.copy.value.row)
      && SameButActivity(s.db[tx.ref].row, tx.seen.value.row)
      && Permitted(s.db[tx.ref].row, tx.op)
  {
    var tx := s.txs[id];
    assert TxInv(s0.db, s.db, s.locks, s.log, id, tx);
    SerialKeepsKeys(s0.db, s.log);
    ReadingsAgree(s0.db, s.log, tx.ref, tx.copy.value.moment);
    ReadingsAgree(s0.db, s.log, tx.ref, tx.seen.value.moment);
    AnswersPrefix(s0.db, s.log, tx.seen.value.moment);
    assert s.log[..tx.seen.value.moment][..tx.copy.value.moment] == s.log[..tx.copy.value.moment];
    ReadingsAgree(s0.db, s.log[..tx.seen.value.moment], tx.ref, tx.copy.value.moment);
    DecisionDependsOnOwner(s.db[tx.ref].row, tx.seen.value.row, tx.op);
  }

  /** What a finished request must bring along. */
  ghost predicate MayEnd(s0: System, s: System, id: nat, e: Entry) {
    && e.answer == Serve(s.db, e.ref, e.op)
    && (e.answer.Ok? ==>
          && e.ref in s.locks && s.locks[e.ref] == id
          && Follows(Horizon(s0.now, OpsOn(s.log, e.ref)), e.op.w[0])
          && AtMost(e.op.w[6], s.now))
  }

  lemma ClockOnAppend(start: Stamp, log: seq<Entry>, now: Stamp, e: Entry)
    requires Clocked(start, log, now)
    requires e.answer.Ok? ==> Follows(Horizon(start, OpsOn(log, e.ref)), e.op.w[0]) && AtMost(e.op.w[6], now)
    ensures Clocked(start, log + [e], now)
  {
    forall ref
      ensures Timely(start, OpsOn(log + [e], ref)) && AtMost(Horizon(start, OpsOn(log + [e], ref)), now)
    {
      SerialAppend(map[], log, e);
      assert Timely(start, OpsOn(log, ref)) && AtMost(Horizon(start, OpsOn(log, ref)), now);
      if ref == e.ref && e.answer.Ok? {
        TimelyAppend(start, OpsOn(log, ref), e.op);
      } else {
        assert OpsOn(log + [e], ref) == OpsOn(log, ref);
      }
    }
  }

  lemma LogOnAppend(db0: Tables, db: Tables, log: seq<Entry>, e: Entry)
    requires LogInv(db0, db, log) && e.answer == Serve(db, e.ref, e.op)
    requires e.seen.Some? ==> TrueReading(db0, log, e.ref, e.seen.value) && Permitted(e.seen.value.row, e.op)
    ensures LogInv(db0, Stored(db, e.ref, e.op), log + [e])
  {
    SerialAppend(db0, log, e);
    AnswersAppend(db0, log, e);
    assert (log + [e])[..|log + [e]| - 1] == log;
  }

  /** A request on another ticket, or one still waiting, does not notice that a call ended. */
  lemma OthersWorkOn(db: Tables, locks: map<string, nat>, id: nat, tx: Tx, ended: nat, e: Entry)
    requires WorksAlone(db, locks, id, tx) && id != ended
    requires e.answer.Ok? ==> e.ref in locks && locks[e.ref] == ended
    requires e.answer == Serve(db, e.ref, e.op)
    ensures WorksAlone(Stored(db, e.ref, e.op), Freed(locks, ended), id, tx)
  {
  }

  lemma OthersStayInTime(start: Stamp, log: seq<Entry>, now: Stamp, tx: Tx, e: Entry)
    requires InTime(start, log, now, tx) && (e.answer.Ok? && tx.phase.Running? ==> tx.ref != e.ref)
    ensures InTime(start, log + [e], now, tx)
  {
    SerialAppend(map[], log, e);
  }

  lemma OthersReadTruly(db0: Tables, log: seq<Entry>, tx: Tx, e: Entry)
    requires ReadsTruly(db0, log, tx)
    ensures ReadsTruly(db0, log + [e], tx)
  {
    if tx.seen.Some? { ReadingKept(db0, log, [e], tx.ref, tx.seen.value); }
    if tx.copy.Some? { ReadingKept(db0, log, [e], tx.ref, tx.copy.value); }
  }

  lemma EndKeepsTxs(s0: System, s: System, id: nat, e: Entry)
    requires Inv(s0, s) && MayEnd(s0, s, id, e)
    ensures AllTxs(s0.db, Stored(s.db, e.ref, e.op), Freed(s.locks, id), s.log + [e], s.txs - {id})
    ensures AllInTime(s0.now, s.log + [e], s.now, s.txs - {id})
  {
    forall other | other in s.txs && other != id
      ensures TxInv(s0.db, Stored(s.db, e.ref, e.op), Freed(s.locks, id), s.log + [e], other, s.txs[other])
      ensures InTime(s0.now, s.log + [e], s.now, s.txs[other])
    {
      assert TxInv(s0.db, s.db, s.locks, s.log, other, s.txs[other]);
      OthersWorkOn(s.db, s.locks, other, s.txs[other], id, e);
      OthersReadTruly(s0.db, s.log, s.txs[other], e);
      OthersStayInTime(s0.now, s.log, s.now, s.txs[other], e);
    }
  }

  lemma FetchedKept(db0: Tables, log: seq<Entry>, fetched: map<nat, (string, Reading)>, e: Entry)
    requires AllFetched(db0, log, fetched)
    ensures AllFetched(db0, log + [e], fetched)
  {
    forall c | c in fetched
      ensures TrueReading(db0, log + [e], fetched[c].0, fetched[c].1)
    {
      ReadingKept(db0, log, [e], fetched[c].0, fetched[c].1);
    }
  }

  lemma EndKeeps(s0: System, s: System, id: nat, answer: Answer<Ticket>)
    requires Inv(s0, s) && id in s.txs && MayEnd(s0, s, id, EntryOf(s.txs[id], answer))
    ensures Inv(s0, Over(s.(db := Stored(s.db, s.txs[id].ref, s.txs[id].op)), id, answer))
  {
    var e := EntryOf(s.txs[id], answer);
    assert TxInv(s0.db, s.db, s.locks, s.log, id, s.txs[id]);
    LogOnAppend(s0.db, s.db, s.log, e);
    ClockOnAppend(s0.now, s.log, s.now, e);
    LocksFreed(s0, s, id);
    EndKeepsTxs(s0, s, id, e);
    FetchedKept(s0.db, s.log, s.fetched, e);
  }

  lemma RefusalEnds(s0: System, s: System, m: Move)
    requires Inv(s0, s) && Enabled(s, m)
    requires (m.Lock? && s.txs[m.id].ref !in s.db) ||
             (m.Check? && Refusal(s.txs[m.id].phase.work.read, s.txs[m.id].op).Some?)
    ensures Inv(s0, After(s, m))
  {
    var tx := s.txs[m.id];
    assert TxInv(s0.db, s.db, s.locks, s.log, m.id, tx);
    var answer: Answer<Ticket> :=
      if m.Lock? then Err(NotFound) else Err(Refusal(tx.phase.work.read, tx.op).value);
    assert Serve(s.db, tx.ref, tx.op) == answer;
    EndKeeps(s0, s, m.id, answer);
  }

  lemma FinishedMayEnd(s0: System, s: System, id: nat)
    requires Inv(s0, s) && id in s.txs && s.txs[id].phase.Running? && s.txs[id].phase.k == 7
    ensures var tx := s.txs[id];
      && MayEnd(s0, s, id, EntryOf(tx, Ok(tx.phase.work.view)))
      && Stored(s.db, tx.ref, tx.op) == s.db[tx.ref := tx.phase.work.view]
  {
    var tx := s.txs[id];
    assert TxInv(s0.db, s.db, s.locks, s.log, id, tx) && InTime(s0.now, s.log, s.now, tx);
    StepsAddUp(s.db[tx.ref], tx.op);
  }

  lemma FinishKeeps(s0: System, s: System, m: Move)
    requires Inv(s0, s) && Enabled(s, m) && m.Finish?
    ensures Inv(s0, After(s, m))
  {
    FinishedMayEnd(s0, s, m.id);
    EndKeeps(s0, s, m.id, Ok(s.txs[m.id].phase.work.view));
  }

  lemma MoveKeeps(s0: System, s: System, m: Move)
    requires Inv(s0, s) && Enabled(s, m)
    ensures Inv(s0, After(s, m))
  {
    match m
    case Fetch(_, _) => FetchKeeps(s0, s, m);
    case Admit(_, _, _, _) => ArrivalKeeps(s0, s, m);
    case Call(_, _, _) => ArrivalKeeps(s0, s, m);
    case Lock(id) => if s.txs[id].ref in s.db { LockKeeps(s0, s, m); } else { RefusalEnds(s0, s, m); }
    case Check(id) =>
      if Refusal(s.txs[id].phase.work.read, s.txs[id].op) == None {
        CheckKeeps(s0, s, m);
      } else {
        RefusalEnds(s0, s, m);
      }
    case Advance(_) => AdvanceKeeps(s0, s, m);
    case Finish(_) => FinishKeeps(s0, s, m);
    case Abort(_) => AbortKeeps(s0, s, m);
  }

  lemma {:induction false} EveryStateKeepsInv(s0: System, ms: seq<Move>)
    requires Initial(s0) && Playable(s0, ms)
    ensures Inv(s0, Exec(s0, ms))
  {
    if ms == [] {
    } else {
      EveryStateKeepsInv(s0, ms[..|ms| - 1]);
      MoveKeeps(s0, Exec(s0, ms[..|ms| - 1]), ms[|ms| - 1]);
    }
  }

  // ---- main results

  /** A client that fetched a ticket and echoes its version is known by what it read. */
  lemma EchoedCopiesAreCarried(s: System, m: Move)
    requires Enabled(s, m) && m.Admit? && m.client in s.fetched && s.fetched[m.client].0 == m.ref
    requires m.op.expected == Some(s.fetched[m.client].1.row.version)
    ensures var tx := After(s, m).txs[m.id];
      && tx.copy == Some(s.fetched[m.client].1) && tx.seen == Some(Reading(s.db[m.ref].row, |s.log|))
      && tx.ref == m.ref && tx.op == m.op && tx.phase == Waiting
  {
  }

  /**
   * Serialisability: after any interleaving, the committed tickets, events and comments are those of the atomic
   * service run one call at a time in the order the calls finished, and every call answered what it answers there.
   * Requests that aborted are not in that order, and requests that were refused are in it without effect.
   */
  lemma Serialisable(s0: System, ms: seq<Move>)
    requires Initial(s0) && Playable(s0, ms)
    ensures var s := Exec(s0, ms);
      && s.db == Serial(s0.db, s.log)
      && forall n | 0 <= n < |s.log| ::
           s.log[n].answer == Serve(Serial(s0.db, s.log[..n]), s.log[n].ref, s.log[n].op)
  {
    EveryStateKeepsInv(s0, ms);
    var s := Exec(s0, ms);
    forall n | 0 <= n < |s.log|
      ensures s.log[n].answer == Serve(Serial(s0.db, s.log[..n]), s.log[n].ref, s.log[n].op)
    {
      AnswerAt(s0.db, s.log, n);
    }
  }

  /** Two requests at work on the same ticket are the same request. */
  lemma OneAtATime(s0: System, ms: seq<Move>, a: nat, b: nat)
    requires Initial(s0) && Playable(s0, ms)
    requires var s := Exec(s0, ms);
      a in s.txs && b in s.txs && !s.txs[a].phase.Waiting? && !s.txs[b].phase.Waiting? && s.txs[a].ref == s.txs[b].ref
    ensures a == b
  {
    EveryStateKeepsInv(s0, ms);
    var s := Exec(s0, ms);
    assert TxInv(s0.db, s.db, s.locks, s.log, a, s.txs[a]) && TxInv(s0.db, s.db, s.locks, s.log, b, s.txs[b]);
  }

  /**
   * The access decision survives the unlocked gap: when a request carries the version of a copy its client read,
   * and gets past the guards, the locked row is the row the client read and the row the permission check saw, up
   * to the activity stamp, and the decision still holds.
   */
  lemma DecisionSurvivesTheGap(s0: System, ms: seq<Move>, id: nat)
    requires Initial(s0) && Playable(s0, ms)
    requires var s := Exec(s0, ms); id in s.txs && s.txs[id].phase.Running? && s.txs[id].copy.Some?
    ensures var s := Exec(s0, ms);
      var tx := s.txs[id];
      && tx.seen.Some? && tx.ref in s.db && Settled(tx.seen.value.row, tx.op)
      && SameButActivity(s.db[tx.ref].row, tx.copy.value.row)
      && SameButActivity(s.db[tx.ref].row, tx.seen.value.row)
      && Permitted(s.db[tx.ref].row, tx.op)
  {
    EveryStateKeepsInv(s0, ms);
    LockedRowIsWhatWasRead(s0, Exec(s0, ms), id);
  }

  /** A committed ticket is its initial self after a timely run of the successful calls on it. */
  lemma CommittedTicketIsARun(s0: System, ms: seq<Move>, ref: string)
    requires Initial(s0) && Playable(s0, ms) && ref in s0.db
    ensures var s := Exec(s0, ms);
      && ref in s.db && s.db[ref] == Run(s0.db[ref], OpsOn(s.log, ref))
      && Timely(s0.now, OpsOn(s.log, ref)) && AtMost(Horizon(s0.now, OpsOn(s.log, ref)), s.now)
  {
    EveryStateKeepsInv(s0, ms);
    var s := Exec(s0, ms);
    SerialIsARun(s0.db, s.log, ref, 0);
    assert s.log[0..] == s.log && s.log[..0] == [];
  }

  lemma CommittedTicketLivesOn(s0: System, ms: seq<Move>, ref: string, t: Ticket, w: Readings, past: seq<Op>)
    requires Initial(s0) && Playable(s0, ms) && ref in s0.db
    requires s0.db[ref] == Run(t, past) && Lived(w, past) && AtMost(Horizon(w[6], past), s0.now)
    ensures var s := Exec(s0, ms);
      ref in s.db && s.db[ref] == Run(t, past + OpsOn(s.log, ref)) && Lived(w, past + OpsOn(s.log, ref))
  {
    CommittedTicketIsARun(s0, ms, ref);
    var more := OpsOn(Exec(s0, ms).log, ref);
    RunConcat(t, past, more);
    TimelyConcat(w[6], past, s0.now, more);
  }

  /**
   * So every property of runs holds of every ticket any interleaving commits: a ticket that came from intake is,
   * in every reachable state, a ticket that came from intake and lived on under the clock.
   */
  lemma CommittedTicketLived(s0: System, ms: seq<Move>, ref: string, i: Intake, w: Readings, past: seq<Op>)
    requires Initial(s0) && Playable(s0, ms) && ref in s0.db
    requires s0.db[ref] == Run(NewTicket(i, w), past) && Lived(w, past) && AtMost(Horizon(w[6], past), s0.now)
    ensures var s := Exec(s0, ms);
      var ops := past + OpsOn(s.log, ref);
      && ref in s.db && s.db[ref] == Run(NewTicket(i, w), ops) && Lived(w, ops)
      && Sound(s.db[ref]) && OnPath(s.db[ref]) && FeedMatches(s.db[ref]) && Stamped(s.db[ref])
  {
    var s := Exec(s0, ms);
    CommittedTicketLivesOn(s0, ms, ref, NewTicket(i, w), w, past);
    var more := OpsOn(s.log, ref);
    LifeIsDated(i, w, past + more);
    HistoryIsAPath(i, w, past + more);
    RunKeepsFeed(i, w, past + more);
    TimesMatchTheLog(i, w, past + more);
  }

  lemma NextMoment(db: Tables, log: seq<Entry>, n: nat)
    requires n < |log|
    ensures Serial(db, log[..n + 1]) == Stored(Serial(db, log[..n]), log[n].ref, log[n].op)
  {
    assert log[..n + 1][..n] == log[..n];
  }

  /** After an effective call under some version, the ticket never has that version again. */
  lemma VersionIsSpent(db: Tables, log: seq<Entry>, i: nat, j: nat)
    requires AnswersAgree(db, log) && i < j < |log| && log[i].ref in Serial(db, log[..i])
    requires log[i].op.expected.Some? && Effective(Serial(db, log[..i])[log[i].ref], log[i].op)
    ensures log[i].ref in Serial(db, log[..j])
    ensures log[i].op.expected.value < Serial(db, log[..j])[log[i].ref].row.version
  {
    var ref := log[i].ref;
    NextMoment(db, log, i);
    VersionMovesWithContent(Serial(db, log[..i])[ref], log[i].op);
    SerialKeepsKeys(db, log[..i]);
    AnswersPrefix(db, log, j);
    ReadingsAgree(db, log[..j], ref, i + 1);
    assert log[..j][..i + 1] == log[..i + 1];
  }

  /** No lost update: after a successful effective call no later success carries the same `If-Match`. */
  lemma NoTwoWritesOnOneVersion(s0: System, ms: seq<Move>, i: nat, j: nat)
    requires Initial(s0) && Playable(s0, ms) && i < j < |Exec(s0, ms).log|
    requires var log := Exec(s0, ms).log;
      && log[i].ref == log[j].ref && log[i].answer.Ok? && log[j].answer.Ok?
      && log[i].op.expected.Some? && log[i].ref in Serial(s0.db, log[..i])
      && Effective(Serial(s0.db, log[..i])[log[i].ref], log[i].op)
    ensures Exec(s0, ms).log[j].op.expected != Exec(s0, ms).log[i].op.expected
  {
    EveryStateKeepsInv(s0, ms);
    VersionIsSpent(s0.db, Exec(s0, ms).log, i, j);
    AnswerAt(s0.db, Exec(s0, ms).log, j);
  }

  // ---- two readers at two moments

  lemma {:induction false} LogOnlyGrows(s0: System, ms: seq<Move>, m: nat)
    requires Playable(s0, ms) && m <= |ms|
    ensures Playable(s0, ms[..m]) && Exec(s0, ms[..m]).log <= Exec(s0, ms).log
  {
    if m < |ms| {
      LogOnlyGrows(s0, ms[..|ms| - 1], m);
      assert ms[..|ms| - 1][..m] == ms[..m];
    } else {
      assert ms[..m] == ms;
    }
  }

  lemma {:induction false} OpsOnlyGrow(log: seq<Entry>, m: nat, ref: string)
    requires m <= |log|
    ensures OpsOn(log[..m], ref) <= OpsOn(log, ref)
  {
    if m < |log| {
      OpsOnlyGrow(log[..|log| - 1], m, ref);
      assert log[..|log| - 1][..m] == log[..m];
    } else {
      assert log[..m] == log;
    }
  }

  lemma CallsOnlyGrow(s0: System, ms: seq<Move>, m: nat, ref: string)
    requires Playable(s0, ms) && m <= |ms| && Playable(s0, ms[..m])
    ensures OpsOn(Exec(s0, ms[..m]).log, ref) <= OpsOn(Exec(s0, ms).log, ref)
  {
    LogOnlyGrows(s0, ms, m);
    var early, late := Exec(s0, ms[..m]).log, Exec(s0, ms).log;
    assert early == late[..|early|];
    OpsOnlyGrow(late, |early|, ref);
  }

  lemma PrefixOfConcat(past: seq<Op>, early: seq<Op>, late: seq<Op>)
    requires early <= late
    ensures (past + late)[..|past| + |early|] == past + early
  {
  }

  lemma CommentsOnlyGrow(t: Ticket, ops: seq<Op>, k: nat)
    requires k <= |ops|
    ensures Run(t, ops[..k]).comments <= Run(t, ops).comments
  {
    assert ops[..|ops|] == ops;
    RunSplit(t, ops, k, |ops|);
    VersionNeverFalls(Run(t, ops[..k]), ops[k..]);
  }

  /** What a reader is shown of a ticket that has lived less, and of the same ticket when it has lived more. */
  lemma LivesGrow(
    i: Intake, w: Readings, past: seq<Op>, early: seq<Op>, late: seq<Op>, earlier: seq<Event>, later: seq<Event>)
    requires early <= late && Lived(w, past + late)
    requires AnswersOrderBy(earlier, Run(NewTicket(i, w), past + early).events)
    requires AnswersOrderBy(later, Run(NewTicket(i, w), past + late).events)
    ensures var a, b := Run(NewTicket(i, w), past + early), Run(NewTicket(i, w), past + late);
      earlier <= later && a.row.lastActivityAt <= b.row.lastActivityAt && a.comments <= b.comments
  {
    var ops, k := past + late, |past| + |early|;
    PrefixOfConcat(past, early, late);
    TimelineOnlyGrows(i, w, ops, k, earlier, later);
    ActivityNeverGoesBack(i, w, ops, k);
    CommentsOnlyGrow(NewTicket(i, w), ops, k);
  }

  /**
   * Readers take no lock. Still, of two readers of one ticket, at any two moments of any interleaving, the earlier
   * one was shown a prefix of the later one's timeline and comments, and the activity stamp did not go back.
   */
  lemma ReadersSeeAGrowingTimeline(
    s0: System, ms: seq<Move>, m: nat, ref: string, i: Intake, w: Readings, past: seq<Op>,
    earlier: seq<Event>, later: seq<Event>)
    requires Initial(s0) && Playable(s0, ms) && m <= |ms| && Playable(s0, ms[..m]) && ref in s0.db
    requires s0.db[ref] == Run(NewTicket(i, w), past) && Lived(w, past) && AtMost(Horizon(w[6], past), s0.now)
    requires ref in Exec(s0, ms[..m]).db && AnswersOrderBy(earlier, Exec(s0, ms[..m]).db[ref].events)
    requires ref in Exec(s0, ms).db && AnswersOrderBy(later, Exec(s0, ms).db[ref].events)
    ensures earlier <= later
    ensures Exec(s0, ms[..m]).db[ref].row.lastActivityAt <= Exec(s0, ms).db[ref].row.lastActivityAt
    ensures Exec(s0, ms[..m]).db[ref].comments <= Exec(s0, ms).db[ref].comments
  {
    CommittedTicketLivesOn(s0, ms[..m], ref, NewTicket(i, w), w, past);
    CommittedTicketLivesOn(s0, ms, ref, NewTicket(i, w), w, past);
    CallsOnlyGrow(s0, ms, m, ref);
    LivesGrow(i, w, past, OpsOn(Exec(s0, ms[..m]).log, ref), OpsOn(Exec(s0, ms).log, ref), earlier, later);
  }
}
