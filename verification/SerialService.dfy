/** All tickets, and the service on them one call at a time. */
module SerialService {
  import opened Wrappers
  import opened Records
  import opened Workflow

  type Tables = map<string, Ticket>

  function Serve(db: Tables, ref: string, op: Op): Answer<Ticket> {
    if ref !in db then Err(NotFound) else Apply(db[ref], op)
  }

  function Stored(db: Tables, ref: string, op: Op): Tables {
    var r := Serve(db, ref, op);
    if r.Ok? then db[ref := r.value] else db
  }

  /** A call concerns its own ticket only, and a ticket that does not exist is not found. */
  lemma CallsConcernOneTicket(db: Tables, ref: string, op: Op)
    ensures ref !in db ==> Serve(db, ref, op) == Err(NotFound) && Stored(db, ref, op) == db
    ensures ref in db ==> Stored(db, ref, op) == db[ref := Commit(db[ref], op)]
    ensures ref in db ==> Serve(db, ref, op) == Apply(db[ref], op)
  {
    assert ref in db ==> db[ref := db[ref]] == db;
  }
}
