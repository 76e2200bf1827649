/** The words of the domain and the transition table (apps/tickets/enums.py). */
module Vocabulary {
  import opened Wrappers

  datatype Status = Open | InProgress | PendingCustomer | Resolved | Closed

  datatype Priority = Low | Medium | High | Urgent

  datatype EventType =
    | Created | StatusChanged | Assigned | Unassigned
    | PriorityChanged | CommentAdded | DetailsUpdated

  /** The table itself: anything not listed is impossible. */
  function AllowedTransitions(s: Status): set<Status> {
    match s
    case Open => {InProgress, Resolved, Closed}
    case InProgress => {PendingCustomer, Resolved, Open}
    case PendingCustomer => {InProgress, Resolved, Open}
    case Resolved => {Closed, InProgress}
    case Closed => {}
  }

  predicate RequiresAssignee(s: Status) { s in {InProgress} }

  predicate ReturnedOnRelease(s: Status) { s in {InProgress, PendingCustomer} }

  predicate IsTransitionAllowed(current: Status, next: Status) {
    next in AllowedTransitions(current)
  }

  predicate IsTerminal(s: Status) { AllowedTransitions(s) == {} }

  /** Every status, in the alphabetical order of its text. */
  const ALPHABETICAL := [Closed, InProgress, Open, PendingCustomer, Resolved]

  function Listed(candidates: seq<Status>, s: Status): seq<Status> {
    if candidates == [] then []
    else (if IsTransitionAllowed(s, candidates[0]) then [candidates[0]] else []) + Listed(candidates[1..], s)
  }

  /** The sorted destinations the API publishes and refusals quote. */
  function AllowedFrom(s: Status): seq<Status> { Listed(ALPHABETICAL, s) }

  lemma {:induction false} ListedIsFilter(candidates: seq<Status>, s: Status, t: Status)
    ensures t in Listed(candidates, s) <==> t in candidates && IsTransitionAllowed(s, t)
  {
    if candidates != [] {
      ListedIsFilter(candidates[1..], s, t);
    }
  }

  /** The published list says exactly what the guard enforces. */
  lemma AllowedFromAgreesWithGuard(s: Status, t: Status)
    ensures t in AllowedFrom(s) <==> IsTransitionAllowed(s, t)
    ensures AllowedFrom(s) == [] <==> IsTerminal(s)
  {
    ListedIsFilter(ALPHABETICAL, s, t);
    assert ALPHABETICAL[0] == Closed && ALPHABETICAL[1] == InProgress && ALPHABETICAL[2] == Open
        && ALPHABETICAL[3] == PendingCustomer && ALPHABETICAL[4] == Resolved;
    if AllowedFrom(s) == [] {
      forall u: Status
        ensures !IsTransitionAllowed(s, u)
      {
        ListedIsFilter(ALPHABETICAL, s, u);
      }
    } else {
      var u := AllowedFrom(s)[0];
      ListedIsFilter(ALPHABETICAL, s, u);
    }
  }

  lemma {:induction false} ListedKeepsOrder(
    candidates: seq<Status>, s: Status, precedes: (Status, Status) -> bool, i: nat, j: nat)
    requires forall a, b | 0 <= a < b < |candidates| :: precedes(candidates[a], candidates[b])
    requires i < j < |Listed(candidates, s)|
    ensures precedes(Listed(candidates, s)[i], Listed(candidates, s)[j])
  {
    var rest := Listed(candidates[1..], s);
    if !IsTransitionAllowed(s, candidates[0]) {
      ListedKeepsOrder(candidates[1..], s, precedes, i, j);
    } else if i > 0 {
      ListedKeepsOrder(candidates[1..], s, precedes, i - 1, j - 1);
    } else {
      ListedIsFilter(candidates[1..], s, rest[j - 1]);
    }
  }

  function FirstLetter(s: Status): char { StatusText(s)[0] }

  /** The published list is in the order of the texts, which differ in their first letters, and repeats nothing. */
  lemma AllowedFromIsSorted(s: Status, i: nat, j: nat)
    requires i < j < |AllowedFrom(s)|
    ensures FirstLetter(AllowedFrom(s)[i]) < FirstLetter(AllowedFrom(s)[j])
  {
    FirstLetters();
    ListedKeepsOrder(ALPHABETICAL, s, (a, b) => FirstLetter(a) < FirstLetter(b), i, j);
  }

  lemma FirstLetters()
    ensures FirstLetter(Closed) < FirstLetter(InProgress) < FirstLetter(Open)
    ensures FirstLetter(Open) < FirstLetter(PendingCustomer) < FirstLetter(Resolved)
  {
  }

  /** The table read backwards: from where a status is entered. */
  function Predecessors(s: Status): set<Status> {
    match s
    case Open => {InProgress, PendingCustomer}
    case InProgress => {Open, PendingCustomer, Resolved}
    case PendingCustomer => {InProgress}
    case Resolved => {Open, InProgress, PendingCustomer}
    case Closed => {Open, Resolved}
  }

  lemma PredecessorsEnter(s: Status, t: Status)
    ensures IsTransitionAllowed(s, t) <==> s in Predecessors(t)
  {
  }

  lemma ClosedIsTheOnlyTerminal(s: Status)
    ensures IsTerminal(s) <==> s == Closed
    ensures !IsTransitionAllowed(s, s)
  {
    assert InProgress in AllowedTransitions(Open);
    assert Open in AllowedTransitions(InProgress);
    assert Open in AllowedTransitions(PendingCustomer);
    assert Closed in AllowedTransitions(Resolved);
  }

  /** The stored text of a status, as events snapshot it. */
  function StatusText(s: Status): string {
    match s
    case Open => "OPEN"
    case InProgress => "IN_PROGRESS"
    case PendingCustomer => "PENDING_CUSTOMER"
    case Resolved => "RESOLVED"
    case Closed => "CLOSED"
  }

  function PriorityText(p: Priority): string {
    match p
    case Low => "LOW"
    case Medium => "MEDIUM"
    case High => "HIGH"
    case Urgent => "URGENT"
  }

  /** Reading a snapshot back. */
  function StatusOf(text: string): Option<Status> {
    if text == "OPEN" then Some(Open)
    else if text == "IN_PROGRESS" then Some(InProgress)
    else if text == "PENDING_CUSTOMER" then Some(PendingCustomer)
    else if text == "RESOLVED" then Some(Resolved)
    else if text == "CLOSED" then Some(Closed)
    else None
  }

  /** No two statuses, and no two priorities, share a text. */
  lemma TextsAreDistinct(s: Status, t: Status, p: Priority, q: Priority)
    ensures StatusOf(StatusText(s)) == Some(s) && StatusText(s) != ""
    ensures StatusText(s) == StatusText(t) <==> s == t
    ensures PriorityText(p) == PriorityText(q) <==> p == q
  {
    assert |StatusText(Open)| == 4 && |StatusText(InProgress)| == 11 && |StatusText(PendingCustomer)| == 16
        && |StatusText(Resolved)| == 8 && |StatusText(Closed)| == 6;
    assert PriorityText(Low)[0] == 'L' && PriorityText(Medium)[0] == 'M' && PriorityText(High)[0] == 'H'
        && PriorityText(Urgent)[0] == 'U';
  }
}
