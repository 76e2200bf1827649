/**
 * Intake (`create_ticket` in apps/tickets/services.py, apps/tickets/throttling.py, apps/customers/models.py) and
 * the sequential life of the whole desk: duplicates, the e-mail budget, customers, and the tickets they lead to.
 */
module Desk {
  import opened Wrappers
  import opened Vocabulary
  import opened Records
  import opened Text
  import opened Workflow
  import opened Runs
  import opened Chronicle
  import opened Fingerprint
  import opened SerialService
  import Effects

  /** The tickets by public id, the customers' names by address, and the grants of the e-mail budget by bucket. */
  datatype Desk = Desk(tickets: map<string, Ticket>, customers: map<string, string>, grants: map<string, seq<nat>>)

  const EMPTY_DESK := Desk(map[], map[], map[])

  // ---- duplicates

  /** A ticket the duplicate query finds. */
  predicate Matches(tickets: map<string, Ticket>, fp: string, since: int, ref: string) {
    ref in tickets && tickets[ref].row.dedupeHash == Some(fp) && tickets[ref].row.createdAt >= since
  }

  /** The query's answer: the newest of the tickets it finds. */
  predicate IsRecentDuplicate(tickets: map<string, Ticket>, fp: string, since: int, ref: string) {
    && Matches(tickets, fp, since, ref)
    && forall r | r in tickets && Matches(tickets, fp, since, r) ::
         tickets[r].row.createdAt <= tickets[ref].row.createdAt
  }

  // ---- the budget: a sliding window of grants per address

  /** How many grants lie in `(lo, hi]`. */
  function Within(grants: seq<nat>, lo: int, hi: int): nat {
    if grants == [] then 0
    else
      var last := grants[|grants| - 1];
      Within(grants[..|grants| - 1], lo, hi) + (if lo < last <= hi then 1 else 0)
  }

  /** The grants that still count at `at`: those younger than the period. */
  function Spent(grants: seq<nat>, period: nat, at: int): nat { Within(grants, at - period, at) }

  /** The bucket of an address; a submission without an address has nothing to be counted against. */
  function BucketOf(cfg: Config, email: string): Option<string> {
    if NormaliseEmail(cfg, email) == "" then None else Some(cfg.hash(NormaliseEmail(cfg, email)))
  }

  function GrantsIn(grants: map<string, seq<nat>>, bucket: string): seq<nat> {
    if bucket in grants then grants[bucket] else []
  }

  /** The budget of an address is used up: the throttle refuses. */
  predicate OverBudget(cfg: Config, grants: map<string, seq<nat>>, email: string, at: nat) {
    && BucketOf(cfg, email).Some? && cfg.limit.Some?
    && Spent(GrantsIn(grants, BucketOf(cfg, email).value), cfg.period, at) >= cfg.limit.value
  }

  /** One more grant, where there is a bucket to charge and a limit to charge it to. */
  function Charge(cfg: Config, grants: map<string, seq<nat>>, email: string, at: nat): map<string, seq<nat>> {
    var bucket := BucketOf(cfg, email);
    if bucket == None || cfg.limit == None then grants
    else grants[bucket.value := GrantsIn(grants, bucket.value) + [at]]
  }

  predicate IsThrottled(cfg: Config, d: Desk, sub: Submission, at: nat) {
    sub.enforceQuota && OverBudget(cfg, d.grants, sub.customerEmail, at)
  }

  function Charged(cfg: Config, d: Desk, sub: Submission, at: nat): map<string, seq<nat>> {
    if sub.enforceQuota then Charge(cfg, d.grants, sub.customerEmail, at) else d.grants
  }

  // ---- customers

  /** A new address creates a customer; only an agent corrects the name of a known one. */
  function ResolvedCustomers(cfg: Config, customers: map<string, string>, sub: Submission): map<string, string> {
    var email, name := NormaliseEmail(cfg, sub.customerEmail), Strip(sub.customerName);
    if email !in customers then customers[email := Truncated(name, 150)]
    else if sub.actor.Some? && name != "" && customers[email] != name then customers[email := Truncated(name, 150)]
    else customers
  }

  function IntakeOf(cfg: Config, sub: Submission): Intake {
    var fp := FingerprintOf(cfg, sub);
    Intake(sub.subject, sub.description, sub.reportedPriority, sub.priority, sub.customerName,
           NormaliseEmail(cfg, sub.customerEmail), sub.actor, if fp.Some? then Some(fp.value.0) else None)
  }

  // ---- one submission

  /** `created == false` means that a duplicate was collapsed into the ticket `ref`. */
  datatype Creation = Creation(ref: string, created: bool)

  ghost predicate HasDuplicate(cfg: Config, d: Desk, sub: Submission, at: nat) {
    FingerprintOf(cfg, sub).Some? &&
    var fp := FingerprintOf(cfg, sub).value;
    exists r | r in d.tickets :: Matches(d.tickets, fp.0, at - fp.1, r)
  }

  /** What `create_ticket` does with a submission; `ref` is the fresh public id of a ticket it creates. */
  ghost predicate Submits(
    cfg: Config, d: Desk, sub: Submission, ref: string, w: Readings, d': Desk, answer: Answer<Creation>)
  {
    if HasDuplicate(cfg, d, sub, w[0].at) then
      && d' == d && answer.Ok? && !answer.value.created
      && var fp := FingerprintOf(cfg, sub).value;
         IsRecentDuplicate(d.tickets, fp.0, w[0].at - fp.1, answer.value.ref)
    else if IsThrottled(cfg, d, sub, w[1].at) then
      d' == d && answer == Err(Throttled)
    else
      && d' == Desk(d.tickets[ref := NewTicket(IntakeOf(cfg, sub), w)],
                    ResolvedCustomers(cfg, d.customers, sub),
                    Charged(cfg, d, sub, w[1].at))
      && answer == Ok(Creation(ref, true))
  }

  // ---- runs of the desk

  datatype Step =
    | Submit(sub: Submission, ref: string, w: Readings, answer: Answer<Creation>)
    | Mutate(target: string, op: Op)

  function ReadingsOf(step: Step): Readings { if step.Submit? then step.w else step.op.w }

  ghost predicate Next(cfg: Config, d: Desk, step: Step, d': Desk) {
    match step
    case Submit(sub, ref, w, answer) => ref !in d.tickets && Submits(cfg, d, sub, ref, w, d', answer)
    case Mutate(target, op) => d' == d.(tickets := Stored(d.tickets, target, op))
  }

  /** A sequential run from an empty desk, each step taking its readings after the one before. */
  ghost predicate History(cfg: Config, ds: seq<Desk>, steps: seq<Step>) {
    && |ds| == |steps| + 1 && ds[0] == EMPTY_DESK
    && (forall k {:trigger steps[k]} | 0 <= k < |steps| :: Next(cfg, ds[k], steps[k], ds[k + 1]))
    && (forall a, b | 0 <= a < b < |steps| :: Follows(ReadingsOf(steps[a])[6], ReadingsOf(steps[b])[0]))
  }

  function Clock(steps: seq<Step>, k: nat): Stamp
    requires k <= |steps|
  {
    if k == 0 then Stamp(0, 0) else ReadingsOf(steps[k - 1])[6]
  }

  // ---- the invariant

  predicate FarApart(a: int, b: int, window: int) { a - b > window || b - a > window }

  ghost predicate Separated(cfg: Config, tickets: map<string, Ticket>) {
    forall a, b | a in tickets && b in tickets && a != b && tickets[a].row.dedupeHash.Some?
                  && tickets[a].row.dedupeHash == tickets[b].row.dedupeHash ::
      FarApart(tickets[a].row.createdAt, tickets[b].row.createdAt, WindowOf(cfg, tickets[a].row.dedupeHash.value))
  }

  predicate Past(tickets: map<string, Ticket>, now: int) {
    forall r | r in tickets :: tickets[r].row.createdAt <= now
  }

  predicate UpToNow(g: seq<nat>, now: int) { forall i | 0 <= i < |g| :: g[i] <= now }

  ghost predicate InBudget(g: seq<nat>, limit: nat, period: nat) {
    forall at: int :: Spent(g, period, at) <= limit
  }

  ghost predicate BudgetsKept(cfg: Config, d: Desk, now: int) {
    forall b | b in d.grants ::
      cfg.limit.Some? && UpToNow(d.grants[b], now) && InBudget(d.grants[b], cfg.limit.value, cfg.period)
  }

  ghost predicate DeskInv(cfg: Config, d: Desk, now: int) {
    Separated(cfg, d.tickets) && Past(d.tickets, now) && BudgetsKept(cfg, d, now)
  }

  lemma {:induction false} WithinShrinks(g: seq<nat>, lo: int, hi: int, lo': int, hi': int)
    requires lo <= lo' && UpToNow(g, hi)
    ensures Within(g, lo', hi') <= Within(g, lo, hi)
  {
    if g != [] {
      WithinShrinks(g[..|g| - 1], lo, hi, lo', hi');
    }
  }

  /** Granting below the limit keeps every window of the period within the limit, past and future. */
  lemma GrantKeepsBudget(g: seq<nat>, limit: nat, period: nat, now: nat)
    requires InBudget(g, limit, period) && UpToNow(g, now) && Spent(g, period, now) < limit
    ensures InBudget(g + [now], limit, period)
  {
    forall at: int
      ensures Spent(g + [now], period, at) <= limit
    {
      assert (g + [now])[..|g|] == g;
      if at >= now {
        WithinShrinks(g, now - period, now, at - period, at);
      } else {
        assert Spent(g, period, at) <= limit;
      }
    }
  }

  lemma ChargeKeepsBudgets(cfg: Config, d: Desk, sub: Submission, at: nat, floor: int, now: int)
    requires BudgetsKept(cfg, d, floor) && floor <= at <= now && !IsThrottled(cfg, d, sub, at)
    ensures BudgetsKept(cfg, d.(grants := Charged(cfg, d, sub, at)), now)
  {
    if Charged(cfg, d, sub, at) != d.grants {
      var g := GrantsIn(d.grants, BucketOf(cfg, sub.customerEmail).value);
      assert InBudget(g, cfg.limit.value, cfg.period);
      GrantKeepsBudget(g, cfg.limit.value, cfg.period, at);
    }
  }

  lemma CreationKeepsSeparation(cfg: Config, d: Desk, sub: Submission, ref: string, w: Readings, floor: int)
    requires Injective(cfg.hash) && Separated(cfg, d.tickets) && Past(d.tickets, floor) && floor <= w[0].at
    requires ref !in d.tickets && !HasDuplicate(cfg, d, sub, w[0].at)
    ensures Separated(cfg, d.tickets[ref := NewTicket(IntakeOf(cfg, sub), w)])
    ensures Past(d.tickets[ref := NewTicket(IntakeOf(cfg, sub), w)], w[6].at)
  {
    ReadingsAscend(w);
    var new_ := NewTicket(IntakeOf(cfg, sub), w);
    assert new_.row.createdAt == w[3].at;
    if FingerprintOf(cfg, sub).Some? {
      FingerprintFixesWindow(cfg, sub);
      var fp := FingerprintOf(cfg, sub).value;
      forall r | r in d.tickets && d.tickets[r].row.dedupeHash == Some(fp.0)
        ensures new_.row.createdAt - d.tickets[r].row.createdAt > fp.1
      {
        assert !Matches(d.tickets, fp.0, w[0].at - fp.1, r);
      }
    }
  }

  lemma MutationKeepsIntake(tickets: map<string, Ticket>, target: string, op: Op)
    ensures var after := Stored(tickets, target, op);
      && after.Keys == tickets.Keys
      && forall r | r in tickets :: after[r].row.dedupeHash == tickets[r].row.dedupeHash
                                 && after[r].row.createdAt == tickets[r].row.createdAt
  {
  }

  lemma StepKeepsInv(cfg: Config, d: Desk, step: Step, d': Desk, floor: int)
    requires Injective(cfg.hash) && DeskInv(cfg, d, floor) && Next(cfg, d, step, d') && floor <= ReadingsOf(step)[0].at
    ensures DeskInv(cfg, d', ReadingsOf(step)[6].at)
  {
    ReadingsAscend(ReadingsOf(step));
    match step
    case Submit(sub, ref, w, answer) =>
      if !HasDuplicate(cfg, d, sub, w[0].at) && !IsThrottled(cfg, d, sub, w[1].at) {
        CreationKeepsSeparation(cfg, d, sub, ref, w, floor);
        ChargeKeepsBudgets(cfg, d, sub, w[1].at, floor, w[6].at);
      }
    case Mutate(target, op) =>
      MutationKeepsIntake(d.tickets, target, op);
  }

  lemma {:induction false} HistoryKeepsInv(cfg: Config, ds: seq<Desk>, steps: seq<Step>, k: nat)
    requires Injective(cfg.hash) && History(cfg, ds, steps) && k <= |steps|
    ensures DeskInv(cfg, ds[k], Clock(steps, k).at)
  {
    if k > 0 {
      HistoryKeepsInv(cfg, ds, steps, k - 1);
      assert Next(cfg, ds[k - 1], steps[k - 1], ds[k]);
      StepKeepsInv(cfg, ds[k - 1], steps[k - 1], ds[k], Clock(steps, k - 1).at);
    }
  }

  // ---- main results

  /** Two tickets with one fingerprint were created more than that fingerprint's window apart. */
  lemma DuplicatesAreFarApart(cfg: Config, ds: seq<Desk>, steps: seq<Step>, k: nat, a: string, b: string, fp: string)
    requires Injective(cfg.hash) && History(cfg, ds, steps) && k <= |steps|
    requires a in ds[k].tickets && b in ds[k].tickets && a != b
    requires ds[k].tickets[a].row.dedupeHash == Some(fp) == ds[k].tickets[b].row.dedupeHash
    ensures FarApart(ds[k].tickets[a].row.createdAt, ds[k].tickets[b].row.createdAt, WindowOf(cfg, fp))
  {
    HistoryKeepsInv(cfg, ds, steps, k);
  }

  /** A ticket stays, with its fingerprint and its creation time. */
  lemma {:induction false} TicketStays(cfg: Config, ds: seq<Desk>, steps: seq<Step>, i: nat, j: nat, ref: string)
    requires History(cfg, ds, steps) && i <= j <= |steps| && ref in ds[i].tickets
    ensures ref in ds[j].tickets
    ensures ds[j].tickets[ref].row.dedupeHash == ds[i].tickets[ref].row.dedupeHash
    ensures ds[j].tickets[ref].row.createdAt == ds[i].tickets[ref].row.createdAt
  {
    if i < j {
      TicketStays(cfg, ds, steps, i, j - 1, ref);
      var step := steps[j - 1];
      assert Next(cfg, ds[j - 1], step, ds[j]);
      if step.Mutate? {
        MutationKeepsIntake(ds[j - 1].tickets, step.target, step.op);
      }
    }
  }

  lemma ReadingsAfterClock(cfg: Config, ds: seq<Desk>, steps: seq<Step>, k: nat)
    requires History(cfg, ds, steps) && k < |steps|
    ensures Clock(steps, k).at <= ReadingsOf(steps[k])[0].at
  {
  }

  /** At any time of any run at most one ticket matches a fingerprint, so picking the newest picks the only one. */
  lemma AtMostOneMatch(
    cfg: Config, ds: seq<Desk>, steps: seq<Step>, k: nat, fp: string, now: int, a: string, b: string)
    requires Injective(cfg.hash) && History(cfg, ds, steps) && k <= |steps| && now >= Clock(steps, k).at
    requires Matches(ds[k].tickets, fp, now - WindowOf(cfg, fp), a)
    requires Matches(ds[k].tickets, fp, now - WindowOf(cfg, fp), b)
    ensures a == b
  {
    HistoryKeepsInv(cfg, ds, steps, k);
  }

  /**
   * A retry is free and never refused: however the desk was used in between, a submission with the fingerprint of
   * an earlier creation, looked up within its window, answers that very ticket and leaves the desk, the budget
   * included, as it was. The window is that of the first creation: replays do not extend it.
   */
  lemma RetryFindsTheOriginal(cfg: Config, ds: seq<Desk>, steps: seq<Step>, i: nat, j: nat)
    requires Injective(cfg.hash) && History(cfg, ds, steps) && i < j < |steps|
    requires steps[i].Submit? && steps[i].answer == Ok(Creation(steps[i].ref, true))
    requires steps[j].Submit? && FingerprintOf(cfg, steps[i].sub).Some?
    requires FingerprintOf(cfg, steps[j].sub) == FingerprintOf(cfg, steps[i].sub)
    requires steps[j].w[0].at - FingerprintOf(cfg, steps[j].sub).value.1 <= steps[i].w[3].at
    ensures steps[j].answer == Ok(Creation(steps[i].ref, false)) && ds[j + 1] == ds[j]
  {
    var sub, fp, ref := steps[j].sub, FingerprintOf(cfg, steps[j].sub).value, steps[i].ref;
    assert Next(cfg, ds[i], steps[i], ds[i + 1]);
    TicketStays(cfg, ds, steps, i + 1, j, ref);
    assert Matches(ds[j].tickets, fp.0, steps[j].w[0].at - fp.1, ref);
    assert Next(cfg, ds[j], steps[j], ds[j + 1]);
    ReadingsAfterClock(cfg, ds, steps, j);
    FingerprintFixesWindow(cfg, sub);
    AtMostOneMatch(cfg, ds, steps, j, fp.0, steps[j].w[0].at, ref, steps[j].answer.value.ref);
  }

  /** Every ticket was created by a submission of the run, which gave it its fingerprint. */
  lemma {:induction false} EveryTicketWasSubmitted(cfg: Config, ds: seq<Desk>, steps: seq<Step>, k: nat, ref: string)
      returns (i: nat)
    requires History(cfg, ds, steps) && k <= |steps| && ref in ds[k].tickets
    ensures i < k && steps[i].Submit? && steps[i].ref == ref && steps[i].answer == Ok(Creation(ref, true))
    ensures ds[k].tickets[ref].row.dedupeHash == IntakeOf(cfg, steps[i].sub).dedupeHash
    ensures ds[k].tickets[ref].row.createdAt == steps[i].w[3].at
  {
    var step := steps[k - 1];
    assert Next(cfg, ds[k - 1], step, ds[k]);
    if step.Mutate? {
      MutationKeepsIntake(ds[k - 1].tickets, step.target, step.op);
    }
    if ref in ds[k - 1].tickets {
      i := EveryTicketWasSubmitted(cfg, ds, steps, k - 1, ref);
    } else {
      i := k - 1;
    }
  }

  /**
   * What is collapsed: a replayed submission has the fingerprint of an earlier creation, looked up within its window.
   * It is the same request, with the same address and the same key or the same words, exactly when both hold equally
   * many separators; a submission without separators is never collapsed into another request.
   */
  lemma ReplayRepeatsARequest(cfg: Config, ds: seq<Desk>, steps: seq<Step>, j: nat) returns (i: nat)
    requires Injective(cfg.hash) && History(cfg, ds, steps) && j < |steps| && steps[j].Submit?
    requires steps[j].answer.Ok? && !steps[j].answer.value.created
    ensures i < j && steps[i].Submit? && steps[i].answer == Ok(Creation(steps[j].answer.value.ref, true))
    ensures FingerprintOf(cfg, steps[j].sub).Some?
    ensures FingerprintOf(cfg, steps[i].sub) == FingerprintOf(cfg, steps[j].sub)
    ensures SameRequest(cfg, steps[i].sub, steps[j].sub) <==> SameSeparators(cfg, steps[i].sub, steps[j].sub)
    ensures Plain(cfg, steps[i].sub) || Plain(cfg, steps[j].sub) ==> SameRequest(cfg, steps[i].sub, steps[j].sub)
    ensures steps[j].w[0].at - WindowFor(cfg, steps[j].sub) <= steps[i].w[3].at
  {
    assert Next(cfg, ds[j], steps[j], ds[j + 1]);
    i := EveryTicketWasSubmitted(cfg, ds, steps, j, steps[j].answer.value.ref);
    var a, b := steps[i].sub, steps[j].sub;
    EqualHashesEqualPreimages(cfg, a, b);
    FingerprintMeansSameRequestIff(cfg, a, b);
    if Plain(cfg, a) { PlainFingerprintIsItsOwn(cfg, a, b); }
    if Plain(cfg, b) { PlainFingerprintIsItsOwn(cfg, b, a); }
  }

  /** A creation that was charged to a normalised address, as the time it was admitted. */
  function AdmissionOf(cfg: Config, step: Step, email: string): seq<nat> {
    if step.Submit? && step.answer.Ok? && step.answer.value.created
       && step.sub.enforceQuota && NormaliseEmail(cfg, step.sub.customerEmail) == email
    then [step.w[1].at] else []
  }

  /** The times at which the run created tickets charged to an address. */
  function Admissions(cfg: Config, steps: seq<Step>, email: string): seq<nat> {
    if steps == [] then []
    else Admissions(cfg, steps[..|steps| - 1], email) + AdmissionOf(cfg, steps[|steps| - 1], email)
  }

  /** `Within` counts: it is the number of grants in the window. */
  lemma {:induction false} WithinCounts(g: seq<nat>, lo: int, hi: int)
    ensures Within(g, lo, hi) == |set i | 0 <= i < |g| && lo < g[i] <= hi|
  {
    var all := set i | 0 <= i < |g| && lo < g[i] <= hi;
    if g == [] {
      assert all == {};
    } else {
      var init, n := g[..|g| - 1], |g| - 1;
      var before := set i | 0 <= i < |init| && lo < init[i] <= hi;
      WithinCounts(init, lo, hi);
      assert all == before + if lo < g[n] <= hi then {n} else {};
    }
  }

  lemma StepChargesAdmissions(cfg: Config, d: Desk, step: Step, d': Desk, email: string)
    requires Injective(cfg.hash) && Next(cfg, d, step, d') && cfg.limit.Some? && email != ""
    ensures GrantsIn(d'.grants, cfg.hash(email)) == GrantsIn(d.grants, cfg.hash(email)) + AdmissionOf(cfg, step, email)
  {
  }

  lemma OneMoreAdmission(cfg: Config, steps: seq<Step>, email: string, k: nat)
    requires 0 < k <= |steps|
    ensures Admissions(cfg, steps[..k], email) ==
      Admissions(cfg, steps[..k - 1], email) + AdmissionOf(cfg, steps[k - 1], email)
  {
    assert steps[..k][..k - 1] == steps[..k - 1];
  }

  lemma {:induction false} GrantsAreAdmissions(cfg: Config, ds: seq<Desk>, steps: seq<Step>, email: string, k: nat)
    requires Injective(cfg.hash) && History(cfg, ds, steps) && cfg.limit.Some? && email != "" && k <= |steps|
    ensures GrantsIn(ds[k].grants, cfg.hash(email)) == Admissions(cfg, steps[..k], email)
  {
    if k > 0 {
      GrantsAreAdmissions(cfg, ds, steps, email, k - 1);
      assert Next(cfg, ds[k - 1], steps[k - 1], ds[k]);
      StepChargesAdmissions(cfg, ds[k - 1], steps[k - 1], ds[k], email);
      OneMoreAdmission(cfg, steps, email, k);
    }
  }

  lemma BucketInBudget(cfg: Config, d: Desk, now: int, bucket: string, at: int)
    requires BudgetsKept(cfg, d, now) && cfg.limit.Some?
    ensures Within(GrantsIn(d.grants, bucket), at - cfg.period, at) <= cfg.limit.value
  {
    if bucket in d.grants {
      assert Spent(d.grants[bucket], cfg.period, at) <= cfg.limit.value;
    }
  }

  /**
   * The quota: whatever was submitted, in no window of the period are more tickets created through the quota for
   * one address than the limit allows.
   */
  lemma QuotaHoldsInEveryWindow(cfg: Config, ds: seq<Desk>, steps: seq<Step>, email: string, at: int)
    requires Injective(cfg.hash) && History(cfg, ds, steps) && cfg.limit.Some? && email != ""
    ensures Within(Admissions(cfg, steps, email), at - cfg.period, at) <= cfg.limit.value
  {
    assert steps[..|steps|] == steps;
    GrantsAreAdmissions(cfg, ds, steps, email, |steps|);
    HistoryKeepsInv(cfg, ds, steps, |steps|);
    BucketInBudget(cfg, ds[|steps|], Clock(steps, |steps|).at, cfg.hash(email), at);
  }

  /** The run so far has used up the budget of the submission's address. */
  predicate UsedUp(cfg: Config, steps: seq<Step>, sub: Submission, at: int) {
    var email := NormaliseEmail(cfg, sub.customerEmail);
    && sub.enforceQuota && cfg.limit.Some? && email != ""
    && Within(Admissions(cfg, steps, email), at - cfg.period, at) >= cfg.limit.value
  }

  /**
   * And nobody is turned away before that: a submission is refused exactly when it is subject to the quota, repeats
   * no recent ticket, and as many tickets as the limit allows were created for its address within the period.
   */
  lemma ThrottledIffUsedUp(cfg: Config, ds: seq<Desk>, steps: seq<Step>, j: nat)
    requires Injective(cfg.hash) && History(cfg, ds, steps) && j < |steps| && steps[j].Submit?
    ensures var step := steps[j];
      var collapsed := step.answer.Ok? && !step.answer.value.created;
      step.answer == Err(Throttled) <==> UsedUp(cfg, steps[..j], step.sub, step.w[1].at) && !collapsed
    ensures steps[j].answer.Ok? || steps[j].answer == Err(Throttled)
  {
    var email := NormaliseEmail(cfg, steps[j].sub.customerEmail);
    assert Next(cfg, ds[j], steps[j], ds[j + 1]);
    if cfg.limit.Some? && email != "" {
      GrantsAreAdmissions(cfg, ds, steps, email, j);
    }
  }

  /** Public submissions never rename a known customer. */
  lemma {:induction false} PublicCannotRename(
    cfg: Config, ds: seq<Desk>, steps: seq<Step>, i: nat, j: nat, email: string)
    requires History(cfg, ds, steps) && i <= j <= |steps| && email in ds[i].customers
    requires forall k | i <= k < j && steps[k].Submit? :: steps[k].sub.actor == None
    ensures email in ds[j].customers && ds[j].customers[email] == ds[i].customers[email]
  {
    if i < j {
      PublicCannotRename(cfg, ds, steps, i, j - 1, email);
      assert Next(cfg, ds[j - 1], steps[j - 1], ds[j]);
    }
  }

  // ---- which submissions are compared at all

  /** The submission asked to be compared with earlier ones, or carries a key. */
  predicate Comparable(sub: Submission) {
    sub.deduplicate || (sub.idempotencyKey.Some? && sub.idempotencyKey.value != "")
  }

  /** How long a submission counts as a repeat: by its key, or by its words. */
  function WindowFor(cfg: Config, sub: Submission): int {
    if sub.idempotencyKey == None || sub.idempotencyKey == Some("") then cfg.dedupeWindow else cfg.keyWindow
  }

  lemma StoredHash(cfg: Config, d: Desk, step: Step, d': Desk)
    requires Next(cfg, d, step, d') && step.Submit? && step.answer == Ok(Creation(step.ref, true))
    ensures step.ref in d'.tickets && (d'.tickets[step.ref].row.dedupeHash.Some? <==> Comparable(step.sub))
  {
  }

  /** A submission that is not compared always opens a ticket of its own, whatever was submitted before. */
  lemma UncomparedSubmissionsCreate(cfg: Config, ds: seq<Desk>, steps: seq<Step>, j: nat)
    requires History(cfg, ds, steps) && j < |steps| && steps[j].Submit? && !Comparable(steps[j].sub)
    requires steps[j].answer.Ok?
    ensures steps[j].answer == Ok(Creation(steps[j].ref, true)) && steps[j].ref !in ds[j].tickets
    ensures ds[j + 1].tickets.Keys == ds[j].tickets.Keys + {steps[j].ref}
    ensures forall r | r in ds[j].tickets :: ds[j + 1].tickets[r] == ds[j].tickets[r]
  {
    assert Next(cfg, ds[j], steps[j], ds[j + 1]);
  }

  /** And no other submission is ever collapsed into it: both sides of a replay asked to be compared. */
  lemma ReplaysAreBetweenCompared(cfg: Config, ds: seq<Desk>, steps: seq<Step>, i: nat, j: nat)
    requires History(cfg, ds, steps) && i < |steps| && j < |steps| && steps[i].Submit? && steps[j].Submit?
    requires steps[i].answer == Ok(Creation(steps[i].ref, true)) && steps[j].answer == Ok(Creation(steps[i].ref, false))
    ensures Comparable(steps[i].sub) && Comparable(steps[j].sub)
  {
    assert Next(cfg, ds[j], steps[j], ds[j + 1]);
    var n := EveryTicketWasSubmitted(cfg, ds, steps, j, steps[i].ref);
    SubmittedOnce(cfg, ds, steps, i, n);
  }

  lemma SubmittedOnce(cfg: Config, ds: seq<Desk>, steps: seq<Step>, i: nat, n: nat)
    requires History(cfg, ds, steps) && i < |steps| && n < |steps| && steps[i].Submit? && steps[n].Submit?
    requires steps[i].answer == Ok(Creation(steps[i].ref, true)) && steps[n].answer == Ok(Creation(steps[i].ref, true))
    requires steps[n].ref == steps[i].ref
    ensures i == n
  {
    assert Next(cfg, ds[i], steps[i], ds[i + 1]) && Next(cfg, ds[n], steps[n], ds[n + 1]);
    if i < n {
      TicketStays(cfg, ds, steps, i + 1, n, steps[i].ref);
    } else if n < i {
      TicketStays(cfg, ds, steps, n + 1, i, steps[i].ref);
    }
  }

  /** The same request again, within the window of the first creation, is collapsed and costs nothing. */
  lemma SameRequestIsCollapsed(cfg: Config, ds: seq<Desk>, steps: seq<Step>, i: nat, j: nat)
    requires Injective(cfg.hash) && History(cfg, ds, steps) && i < j < |steps| && steps[i].Submit? && steps[j].Submit?
    requires steps[i].answer == Ok(Creation(steps[i].ref, true))
    requires Comparable(steps[i].sub) && Comparable(steps[j].sub) && SameRequest(cfg, steps[i].sub, steps[j].sub)
    requires steps[j].w[0].at - WindowFor(cfg, steps[j].sub) <= steps[i].w[3].at
    ensures steps[j].answer == Ok(Creation(steps[i].ref, false)) && ds[j + 1] == ds[j]
  {
    FingerprintMeansSameRequestIff(cfg, steps[i].sub, steps[j].sub);
    RetryFindsTheOriginal(cfg, ds, steps, i, j);
  }

  // ---- what a creation stores

  /** A created ticket holds what was submitted, for the customer of the normalised address. */
  lemma CreationStoresTheSubmission(cfg: Config, d: Desk, step: Step, d': Desk)
    requires Next(cfg, d, step, d') && step.Submit? && step.answer == Ok(Creation(step.ref, true))
    ensures step.ref !in d.tickets && d'.tickets == d.tickets[step.ref := d'.tickets[step.ref]]
    ensures var sub, row := step.sub, d'.tickets[step.ref].row;
      && row.subject == Strip(sub.subject) && row.description == Strip(sub.description)
      && row.reportedPriority == sub.reportedPriority && row.createdBy == sub.actor
      && row.priority == (if sub.priority == None then sub.reportedPriority else sub.priority.value)
      && row.customer == NormaliseEmail(cfg, sub.customerEmail) && row.customer in d'.customers
      && Effects.FitsColumn(row.reportedByName, Strip(sub.customerName))
      && row.status == Open && row.assignee == None && row.version == 1
  {
    Effects.Creation(IntakeOf(cfg, step.sub), step.w);
  }

  /** The customer of an accepted submission: created under its name, corrected by staff, otherwise left alone. */
  lemma CreationKeepsCustomers(cfg: Config, d: Desk, step: Step, d': Desk)
    requires Next(cfg, d, step, d') && step.Submit? && step.answer == Ok(Creation(step.ref, true))
    ensures var email, name := NormaliseEmail(cfg, step.sub.customerEmail), Strip(step.sub.customerName);
      && d'.customers.Keys == d.customers.Keys + {email}
      && (forall other | other in d.customers && other != email :: d'.customers[other] == d.customers[other])
      && (email !in d.customers ==> Effects.FitsColumn(d'.customers[email], name))
      && (email in d.customers && step.sub.actor.Some? && name != "" ==>
            d'.customers[email] == d.customers[email] == name || Effects.FitsColumn(d'.customers[email], name))
      && (email in d.customers && (step.sub.actor == None || name == "") ==>
            d'.customers[email] == d.customers[email])
  {
  }

  /** A submission that creates nothing leaves the desk as it was. */
  lemma OnlyCreationsChangeTheDesk(cfg: Config, d: Desk, step: Step, d': Desk)
    requires Next(cfg, d, step, d') && step.Submit? && step.answer != Ok(Creation(step.ref, true))
    ensures d' == d
  {
  }

  /** A ticket came from intake and lived on under the clock. */
  ghost predicate Alive(t: Ticket, now: Stamp) {
    exists i: Intake, w: Readings, ops: seq<Op> ::
      t == Run(NewTicket(i, w), ops) && Lived(w, ops) && AtMost(Horizon(w[6], ops), now)
  }

  lemma LifeGoesOn(i: Intake, w: Readings, ops: seq<Op>, op: Op)
    requires Lived(w, ops) && Follows(Horizon(w[6], ops), op.w[0])
    ensures Alive(Commit(Run(NewTicket(i, w), ops), op), op.w[6])
  {
    RunAppend(NewTicket(i, w), ops, op);
    TimelyAppend(w[6], ops, op);
    assert Lived(w, ops + [op]);
  }

  lemma LivesOn(t: Ticket, op: Op, now: Stamp)
    requires Alive(t, now) && Follows(now, op.w[0])
    ensures Alive(Commit(t, op), op.w[6])
  {
    var i: Intake, w: Readings, ops: seq<Op> :|
      t == Run(NewTicket(i, w), ops) && Lived(w, ops) && AtMost(Horizon(w[6], ops), now);
    LifeGoesOn(i, w, ops, op);
  }

  lemma AliveLater(t: Ticket, now: Stamp, later: Stamp)
    requires Alive(t, now) && AtMost(now, later)
    ensures Alive(t, later)
  {
    var i: Intake, w: Readings, ops: seq<Op> :|
      t == Run(NewTicket(i, w), ops) && Lived(w, ops) && AtMost(Horizon(w[6], ops), now);
    assert AtMost(Horizon(w[6], ops), later);
  }

  lemma NewbornIsAlive(i: Intake, w: Readings)
    ensures Alive(NewTicket(i, w), w[6])
  {
    assert Run(NewTicket(i, w), []) == NewTicket(i, w) && Lived(w, []) && Horizon(w[6], []) == w[6];
  }

  /** What one step of the desk does to one ticket: it is inserted, left alone, or called. */
  lemma StepOnTicket(cfg: Config, d: Desk, step: Step, d': Desk, ref: string)
    requires Next(cfg, d, step, d') && ref in d'.tickets
    ensures ref !in d.tickets ==> step.Submit? && d'.tickets[ref] == NewTicket(IntakeOf(cfg, step.sub), step.w)
    ensures ref in d.tickets && d'.tickets[ref] != d.tickets[ref] ==>
      step.Mutate? && d'.tickets[ref] == Commit(d.tickets[ref], step.op)
  {
  }

  lemma StepKeepsAlive(t: Ticket, t': Ticket, step: Step, now: Stamp)
    requires Alive(t, now) && Follows(now, ReadingsOf(step)[0])
    requires t' == t || (step.Mutate? && t' == Commit(t, step.op))
    ensures Alive(t', ReadingsOf(step)[6])
  {
    if t' == t {
      ReadingsAscend(ReadingsOf(step));
      AliveLater(t, now, ReadingsOf(step)[6]);
    } else {
      LivesOn(t, step.op, now);
    }
  }

  /** So every property of lived runs holds of every ticket on a desk, whatever was submitted and called. */
  lemma {:induction false} EveryTicketIsAlive(cfg: Config, ds: seq<Desk>, steps: seq<Step>, k: nat, ref: string)
    requires History(cfg, ds, steps) && k <= |steps| && ref in ds[k].tickets
    ensures Alive(ds[k].tickets[ref], Clock(steps, k))
  {
    assert k > 0;
    var step, before, now := steps[k - 1], ds[k - 1], Clock(steps, k - 1);
    assert Next(cfg, before, step, ds[k]);
    StepOnTicket(cfg, before, step, ds[k], ref);
    if ref in before.tickets {
      EveryTicketIsAlive(cfg, ds, steps, k - 1, ref);
      StepKeepsAlive(before.tickets[ref], ds[k].tickets[ref], step, now);
    } else {
      NewbornIsAlive(IntakeOf(cfg, step.sub), step.w);
    }
  }
}
