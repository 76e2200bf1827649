# A verified model of the ticket service

This project models the audited ticket service of a support desk and proves what its design promises: that the row,
the event log and the version counter of a ticket always agree; that any interleaving of requests is equivalent to
serving them one at a time; that a permission decided on an unlocked read still holds when the write happens, provided
the client sends the version it has read as `If-Match`; and that intake collapses retries without ever exceeding an address's budget.

`dafny verify dfyconfig.toml` checks the whole project.

## How the model is laid out

| file | what it holds |
|---|---|
| `Vocabulary.dfy`, `Text.dfy`, `Records.dfy`, `Wrappers.dfy` | statuses and the transition table, trimming, the stored records and the calls |
| `Workflow.dfy` | one call on one ticket as functions: the refusals, the row afterwards, the rows appended |
| `Runs.dfy` | runs of any length: the state invariant, the version, accounting, the status path, repetition |
| `Effects.dfy` | what each command and the intake bring about, stated from the commands alone, and what that adds up to over runs |
| `Replay.dfy` | the log replays forwards and undoes backwards |
| `Chronicle.dfy` | runs under the clock: the timeline query, the comment feed, the time stamps |
| `Access.dfy` | the access matrix, its adapter, and ownership over runs |
| `Transaction.dfy` | one call as the small steps of its transaction, with the partial-column `UPDATE` |
| `SerialService.dfy` | all tickets, and the service one call at a time |
| `Concurrency.dfy` | any number of requests interleaved, refined to the serial service |
| `Ownership.dfy` | what the finished calls of an interleaving are answerable for |
| `Staleness.dfy` | which requests can be overtaken between their check and their lock, and the interleavings that do it |
| `Fingerprint.dfy`, `Desk.dfy` | which submissions are the same request; duplicates, the e-mail budget, customers, the sequential desk |
| `IfMatch.dfy` | entity tags printed and parsed |
| `Helpdesk.dfy` | the service as written: objects mutated field by field, tables appended to, each method proved against the above |

`Helpdesk` is the imperative form of the code. `Workflow` and `Desk.Submits` are its specification, and the properties are
proved about that specification. `Transaction` takes the same writes apart into the steps between which other
transactions may run.

## Assumptions

- The clock is shared and never goes back; keys of inserted rows increase. Every call carries the seven readings it may
  take of both (`Records.Readings`), in the order of the code: the claim, the first or assignment event, the status
  stamp, the activity stamp, the `updated_at` of the `UPDATE`, and two events. In a concurrent run each reading is taken
  when its step is.
- Users are not deleted and keep their names and roles, so a user is modelled as a value and equality of values is
  equality of primary keys. Public ids are unique (`Access.Identified`).
- Request bodies have passed the serializers, so statuses and priorities are among the declared choices.
- The hash is collision free (`Fingerprint.Injective`). Lower-casing is a parameter; two results need that it is idempotent
  and adds no blanks at the ends (`Fingerprint.LowerLaws`).
- The rate throttle is a sliding window: a request is admitted while fewer than the limit of grants are younger than the
  period. Its counters are shared by all workers.
- Intake is sequential. The repository's own README says (lines 400-402) that two simultaneous identical creations can
  both miss each other.
- A ticket is locked by at most one transaction, and the locked read returns the latest committed row.

## What turned out conditional

- A permission decided on the unlocked read can be out of date when the write happens. `AppliedAsPermittedIff` says for
  which requests, over every interleaving: exactly for those of `Access.CanBeOvertaken`, which looks at the request and the
  row it was decided on. The decision is safe when the request names a version not newer than that row, when its rule does
  not look at the ticket (supervisors, comments, priorities), or when the ticket is closed; an agent's other request is safe
  only if it names the very next version and asks for a move that one call of somebody else cannot both make possible and
  forbid. For every request that is not safe `StaleWriteIsPlayable` gives the interleaving: any supervisor gets in its way
  between the check and the lock, and the write still succeeds. `NamingTheNextVersionIsNotSafe` is an instance with an
  `If-Match`. So ownership is promised for calls that are *sure* (`Ownership.Sure`), call by call.
- The texts that are hashed are joined with separators that are not escaped. Two submissions with one fingerprint are the same
  request exactly when they hold equally many separators (`FingerprintMeansSameRequestIff`), and a submission shares its
  fingerprint with its own request alone exactly when its text cannot be cut elsewhere into a normalised address and stripped
  fields (`FingerprintIsItsOwnIff`). `TwoRequestsCollide` gives two requests that differ and collide: subject and description
  with the unit separator in different places. Where addresses hold no separator only the cut between
  subject and description can move, and keys never collide (`FingerprintIsItsOwnAmongCleanAddressesIff`). In general a
  colliding pair with keys needs an address that goes on, with a colon, where the other one stops
  (`KeyedFingerprintMeansSameRequestIff`); the service accepts any address, its validation is not part of this model.
- README lines 387-394 speak of releasing an `IN_PROGRESS` ticket; the code returns `PENDING_CUSTOMER` tickets to the queue
  as well, and the model follows the code.

## Model

| member | source | states |
|---|---|---|
| Vocabulary.AllowedFromAgreesWithGuard | apps/tickets/enums.py:88-98 | the list of destinations published to clients holds exactly what the guard lets through, and is empty exactly for terminal statuses |
| Vocabulary.AllowedFromIsSorted | apps/tickets/enums.py:88-90 | the published list is in the order of its texts, without repetition |
| Vocabulary.ClosedIsTheOnlyTerminal | apps/tickets/enums.py:49-55 | CLOSED is the only terminal status, and no status leads to itself |
| Vocabulary.PredecessorsEnter | apps/tickets/enums.py:49-55 | read backwards: the statuses from which each status is entered, and no others |
| Text.TrimIsIdempotent | apps/tickets/services.py:100-101 | stripped text is stable under stripping, and text without outer blanks is left alone |
| Text.AsciiBlanks | apps/tickets/services.py:100-101 | no visible ASCII character is stripped, and the usual layout characters are |
| Runs.DatabaseRefusesIff | apps/tickets/models.py:115-131 | exactly which rows the three check constraints refuse, and no sound row is among them |
| Runs.EveryTicketIsSound | apps/tickets/models.py:115-131 | every ticket reachable from intake by any calls: worked or waiting implies an owner, resolution and closure stamps match the status both ways, an ASSIGNED event exists exactly when `first_assigned_at` is set; the three check constraints follow |
| Runs.VersionMovesWithContent | apps/tickets/services.py:427-432 | the version moves by one exactly on the calls that change content, and a call that does not move it leaves all but the activity stamp |
| Runs.VersionNeverFalls | apps/tickets/services.py:327-352 | over any run the version never falls and the tables only grow; while it stands still nothing but comments and the activity stamp moved |
| Runs.VersionDeterminesState | apps/tickets/services.py:374-386 | two moments of one run with equal versions agree on every column but the activity stamp |
| Runs.NoLostUpdate | apps/tickets/services.py:374-386 | once an effective call with some `If-Match` succeeded, every later call with the same `If-Match` is refused |
| Runs.WriteLandsOnWhatWasRead | apps/tickets/services.py:374-386 | a call under `If-Match` that succeeds is applied to exactly the content, and the same change events, its client read earlier in the run |
| Runs.NoSilentWrite | apps/tickets/services.py:435-455 | a call changes a ticket if and only if it records an event; new events carry the actor, and the caller's reason is among them |
| Runs.RunAccounts | apps/tickets/services.py:164-186 | the version counts effective calls, and change events exceed it by exactly the pick-ups, the releases returned to the queue and the two-text edits |
| Runs.VersionAndEventsAgree | apps/tickets/services.py:427-432 | from intake, the recorded change events lie between version - 1 and twice that, with the exact excess |
| Runs.HistoryIsAPath | apps/tickets/services.py:229-241 | the recorded status history is a path of the table from OPEN to the current status, also through moves made by a release |
| Runs.ClosedIsFrozen | apps/tickets/services.py:366-371 | after closure every call is refused and no run of calls changes row, events or comments |
| Runs.RepetitionIsHarmless | apps/tickets/services.py:208-209 | repeating a successful assignment, priority or edit changes nothing at all; a repeated status change is always refused |
| Runs.OwnTextIsNoOp | apps/tickets/services.py:292-301 | patching any reachable ticket with its own stored texts is a no-op |
| Effects.RefusalsInOrder | apps/tickets/services.py:148-159 | a closed ticket refuses first, then a version other than the ticket's, then a move the table does not have; everything else gets through |
| Effects.StatusChange | apps/tickets/services.py:161-175 | the whole row after a status change: an owner and a first-assignment stamp appear only when a free ticket enters IN_PROGRESS, `resolved_at` and `closed_at` follow the new status |
| Effects.StatusChangeIsLogged | apps/tickets/services.py:177-186 | the events of a status change: an ASSIGNED event exactly when a free ticket enters IN_PROGRESS, then the move with its note |
| Effects.Assignment | apps/tickets/services.py:208-214 | assigning to the present owner changes nothing; otherwise owner, first stamp and one ASSIGNED event from the old owner's name to the new one's |
| Effects.Release | apps/tickets/services.py:216-244 | a release takes the owner away, and sends IN_PROGRESS and PENDING_CUSTOMER, and nothing else, back to OPEN |
| Effects.ReleaseIsLogged | apps/tickets/services.py:218-241 | the events of a release: UNASSIGNED, and the return to the queue exactly when there is one |
| Effects.Reclassification | apps/tickets/services.py:260-274 | the priority afterwards is the one asked for, recorded with both values and the note, or nothing changed |
| Effects.Rewording | apps/tickets/services.py:292-313 | the texts afterwards are those given, stripped, or what they were; without a real change nothing is written |
| Effects.RewordingIsLogged | apps/tickets/services.py:304-312 | one event for each text that really changed, subject first, with the text before and after |
| Effects.Remark | apps/tickets/services.py:335-352 | a comment is stored with its stripped text, author and visibility, and announced; of the row only the activity stamp moves |
| Effects.RowHoldsWhatWasAsked | apps/tickets/services.py:138-352 | after any run, status, owner, priority and texts are what the requests that got through have asked for, one after the other |
| Effects.OwnersAreMadeByClaims | apps/tickets/services.py:161-170 | over any run: who owns a ticket was assigned to it, or moved it to IN_PROGRESS when it was free, and has owned it since that call |
| Effects.CommentsAreTheRemarks | apps/tickets/services.py:335-340 | over any run, the comments are exactly those the successful requests made, in order, each with its text, author and visibility for good |
| Effects.LogIsWellKept | apps/tickets/services.py:435-455 | over any run from intake: one CREATED event, the first; every kind fits the column its event speaks about; only COMMENT_ADDED links a comment |
| Effects.Creation | apps/tickets/services.py:97-111 | a new ticket holds what was submitted, with the priority of staff before the reported one, and is open, free and at version 1 |
| Effects.CreationIsLogged | apps/tickets/services.py:112-131 | the CREATED event says who created it, and a PRIORITY_CHANGED event follows exactly when staff classified it differently |
| Replay.EventsTellTheCall | apps/tickets/services.py:177-185 | the events of one call lead exactly from the audited columns before it to those after it, each old value being the current one |
| Replay.HistoryCannotLie | apps/tickets/services.py:435-455 | for every run: folding the log over the submission gives the current row, undoing it gives the submission back, and per field every old value is the previous new value |
| Replay.UndoReachesAnyMoment | apps/tickets/services.py:216-241 | undoing the events newer than any earlier moment recovers that moment's audited columns |
| Chronicle.ActivityNeverGoesBack | apps/tickets/models.py:97-106 | `last_activity_at` never decreases over a run under the clock |
| Chronicle.ActivityMarksTheCall | apps/tickets/services.py:348-351 | a call that wrote anything moves the activity stamp into its own duration; a comment moves it to the comment's time and touches no other column |
| Chronicle.OrderByIsInsertionOrder | apps/tickets/models.py:201-203 | the query by creation time and key has one answer only, the rows in insertion order |
| Chronicle.TimelineOnlyGrows | apps/tickets/views.py:370-375 | what one reader of the timeline was shown is a prefix of what every later reader is shown |
| Chronicle.FeedAgreesWithComments | apps/tickets/serializers.py:244-245 | the comment entries of the timeline are the comments, one for one and in the order of the comment list |
| Chronicle.TimesMatchTheLog | apps/tickets/services.py:410-424 | over every run: `resolved_at` is the stamp of the latest entry into RESOLVED, `first_assigned_at` of the first assignment, a closed ticket lacks `resolved_at` exactly when closed straight from OPEN, and resolution is not after closure |
| Chronicle.FirstAssignmentIsKept | apps/tickets/services.py:395-397 | once set, `first_assigned_at` is never rewritten; the columns written at intake never change |
| Access.WhatStaffMayDo | apps/tickets/permissions.py:58-95 | supervisors may do everything; agents comment on and reclassify any ticket, move and edit what is free or theirs, release what is theirs, take for themselves what is free or theirs; nobody else may do anything |
| Access.WhatStaffMayRequest | apps/tickets/permissions.py:97-190 | the same for requests as they arrive, by view action and body, unknown actions included |
| Access.TicketActionPermission.HasPermission | apps/tickets/permissions.py:131-147 | the check before the ticket is fetched lets exactly the staff roles pass, for known actions and for methods without a handler, and never refuses what the check on the ticket would allow |
| Access.AdapterDecidesTheCall | apps/tickets/permissions.py:149-190 | what the adapter resolves from a request is the matrix's decision on the call the view then delegates |
| Access.TicketActionPermission.HasObjectPermission | apps/tickets/permissions.py:149-166 | allowed exactly as the matrix says, so an agent moves and edits exactly what is free or theirs; a denial leaves its action's message, nothing else changes the message |
| Access.DenialsSay | apps/tickets/permissions.py:110-117 | what is told to those whose move, edit or assignment is denied |
| Access.DecisionDependsOnOwner | apps/tickets/permissions.py:58-83 | two rows with the same owner get the same decision |
| Access.AgentsOnlyTakeOrRelease | apps/tickets/permissions.py:58-95 | a permitted call by an agent keeps the owner, takes a free ticket for that agent, or releases that agent's own, with the events to match |
| Access.HandoverNeedsSupervisor | apps/tickets/permissions.py:70-83 | in a permitted run ownership passes directly from one person to another only by a supervisor |
| Access.AgentsAssignThemselves | apps/tickets/services.py:164-170 | every ASSIGNED event by an agent names that agent and had no previous owner, automatic pick-up included |
| Access.ReleaseLiesBetweenOwners | apps/tickets/services.py:216-227 | in agents-only runs an UNASSIGNED event by the old owner lies between two different owners |
| Access.SettledDecisionStands | apps/tickets/permissions.py:58-95 | a decision whose rule does not look at the ticket, or made on a version the call names or a later one, stands wherever the call gets through, after any calls in between |
| Access.DecisionStandsIff | apps/tickets/permissions.py:58-95 | for every permitted request: the decision stands over every permitted run exactly when the request cannot be overtaken, by its command, its actor and the version it names |
| Access.UnsettledDecisionCanBeOvertaken | apps/tickets/services.py:374-386 | any supervisor can overtake such a request with permitted calls, as many as the version it names asks for, so that it gets through without being permitted |
| Access.NamingTheNextVersionIsNotSafe | apps/tickets/services.py:374-386 | an agent who picks up a free ticket under its next version is let through by the check, and the decision does not stand |
| Transaction.StepsAddUp | apps/tickets/services.py:138-352 | the steps of a transaction add up to the atomic call, and the stored row equals the object in memory: the named columns cover every change |
| Transaction.EveryUpdateMeetsConstraints | apps/tickets/models.py:115-131 | a transaction stores its row in one single update, and its view of the row meets the check constraints at every step |
| Transaction.SaveStoresMemory | apps/tickets/services.py:427-432 | whenever the list of changed columns covers the changes, a save stores the whole object with its new version and stamps |
| SerialService.CallsConcernOneTicket | apps/tickets/services.py:358-363 | one call on all tickets is that call on its ticket and on no other, and an unknown ticket is not found |
| Concurrency.Serialisable | apps/tickets/services.py:138-186 | after any interleaving of reads, locks, guards, steps, commits and aborts, tables and answers are those of the atomic service run one call at a time in finishing order |
| Concurrency.OneAtATime | apps/tickets/services.py:358-363 | two requests past the lock on one ticket are the same request |
| Concurrency.EchoedCopiesAreCarried | apps/tickets/views.py:258-269 | a request that echoes the version its client fetched carries that copy, and what its permission check saw |
| Concurrency.DecisionSurvivesTheGap | apps/tickets/views.py:258-269 | with a version its client read, a request past the guards works on the row the client read and the permission check saw, up to the activity stamp, and is still permitted |
| Staleness.AppliedAsPermittedIff | apps/tickets/views.py:258-269 | over every interleaving, a permitted request that went through its check is applied only where it is permitted exactly when it cannot be overtaken |
| Staleness.StaleWriteIsPlayable | apps/tickets/services.py:374-386 | for every request that can be overtaken there is an interleaving in which it is admitted, a supervisor gets in its way with permitted calls, and it commits on a row on which it is not permitted |
| Staleness.PlayServing | apps/tickets/services.py:138-186 | a waiting request on a free ticket that its guards let through can be served at once, and then the serial service has served it |
| Ownership.SureCallIsPermitted | apps/tickets/views.py:258-269 | every successful call whose decision was settled was permitted on the state it was applied to, whatever anyone else did |
| Concurrency.CommittedTicketLived | apps/tickets/services.py:1-14 | every ticket any interleaving commits is an intake ticket after a timely run, so it is sound, on its status path, and its feed and stamps match its log |
| Ownership.HandoversAreSafe | apps/tickets/permissions.py:58-95 | under concurrency, the call that passes a ticket directly from one person to another is a supervisor's, unless its check saw a row that was not the old owner's and it named no version up to that row's; nothing is asked of other calls |
| Ownership.AgentsClaimForThemselves | apps/tickets/services.py:164-170 | under concurrency, an ASSIGNED event by an agent was recorded by a call of that agent, the one returned, and if that call was sure the event names that agent and the ticket had no owner |
| Ownership.OwnersAreNotDispossessed | apps/tickets/services.py:216-227 | under concurrency, a ticket that is no longer its owner's was taken by one call, the one returned, and if that was a sure call of an agent the owner's UNASSIGNED event lies between |
| Ownership.SureCallsMakeAPermittedRun | apps/tickets/permissions.py:58-95 | the life of a ticket on which only sure calls got through is a permitted run, so all results on permitted runs hold of it |
| Concurrency.ReadersSeeAGrowingTimeline | apps/tickets/views.py:371-375 | of two unlocked readers at any two moments of any interleaving, the earlier was shown a prefix of the later one's timeline and comments, and the activity stamp did not go back |
| Concurrency.NoTwoWritesOnOneVersion | apps/tickets/services.py:374-386 | under concurrency, after a successful effective call no later successful call carried the same `If-Match` |
| Fingerprint.NormaliseIsIdempotent | apps/customers/models.py:29-42 | normalising an address again, as every save does, leaves it alone |
| Fingerprint.AddressesAreCompared | apps/customers/models.py:40-42 | an address is compared without the blanks around it and lower-cased |
| Fingerprint.FormsNeverCoincide | apps/tickets/services.py:487-498 | a keyed and a natural preimage are never equal |
| Fingerprint.FingerprintMeansSameRequestIff | apps/tickets/services.py:476-500 | any two submissions are the same request exactly when they have one fingerprint and hold equally many separators |
| Fingerprint.FingerprintIsItsOwnIff | apps/tickets/services.py:487-500 | a fingerprint stands for its own request alone, whatever else is submitted, exactly when the hashed text cannot be cut elsewhere into a normalised address and stripped fields |
| Fingerprint.PlainFingerprintIsItsOwn | apps/tickets/services.py:487-500 | a submission without separators in its fields shares its fingerprint with the same request only, whatever the other one holds |
| Fingerprint.TwoRequestsCollide | apps/tickets/services.py:490-498 | two requests with different subjects and descriptions, from any address, with one fingerprint |
| Fingerprint.FingerprintIsItsOwnAmongCleanAddressesIff | apps/tickets/services.py:487-500 | among addresses without separators a key stands for its own request, and words do exactly when they cannot be cut elsewhere into subject and description |
| Fingerprint.KeyedFingerprintMeansSameRequestIff | apps/tickets/services.py:487-489 | keyed submissions with one fingerprint are the same request exactly when neither address continues the other at a colon |
| Fingerprint.KeyedFormsCanCollide | apps/tickets/services.py:487-489 | two keyed requests from different addresses with one fingerprint, wherever one address is the other up to a colon |
| Fingerprint.FingerprintMeansSameRequest | apps/tickets/services.py:476-500 | when the address and the subject, or the address before a key, hold no separator, equal fingerprints mean the same request, and conversely |
| Desk.DuplicatesAreFarApart | apps/tickets/services.py:503-511 | two tickets with one fingerprint were created more than that fingerprint's window apart |
| Desk.AtMostOneMatch | apps/tickets/services.py:503-511 | at any moment of any sequential run, and any later lookup time, at most one ticket matches, so the newest-first pick is the only one |
| Desk.RetryFindsTheOriginal | apps/tickets/services.py:80-95 | a retry within the window of the first creation answers that ticket, is never throttled, and leaves desk and budget as they were, whatever happened in between |
| Desk.ReplayRepeatsARequest | apps/tickets/services.py:476-486 | a collapsed submission has the fingerprint of an earlier creation within its window, is the same request exactly when both hold equally many separators, and always if either holds none |
| Desk.SameRequestIsCollapsed | apps/tickets/services.py:80-90 | two submissions that ask to be compared, by flag or key, and are the same request within the window of the first, make one ticket, and the second costs nothing |
| Desk.UncomparedSubmissionsCreate | apps/tickets/services.py:80-81 | without the flag and without a key, missing or empty, an accepted submission always opens a ticket of its own |
| Desk.ReplaysAreBetweenCompared | apps/tickets/services.py:80-90 | nothing is ever collapsed into a ticket whose submission did not ask to be compared |
| Desk.QuotaHoldsInEveryWindow | apps/tickets/throttling.py:52-60 | in no window of the period are more tickets admitted through the quota for one address than the limit |
| Desk.ThrottledIffUsedUp | apps/tickets/throttling.py:52-60 | over any run, a submission is refused exactly when it is subject to the quota, is not collapsed, and the limit of tickets was created for its normalised address within the period |
| Desk.WithinCounts | apps/tickets/throttling.py:34-60 | the sliding window counts the grants in it |
| Desk.GrantKeepsBudget | apps/tickets/throttling.py:52-60 | granting below the limit keeps every window, past and future, within the limit |
| Desk.PublicCannotRename | apps/tickets/services.py:458-473 | public submissions never change the name of a known customer, over any run |
| Desk.CreationStoresTheSubmission | apps/tickets/services.py:97-111 | the ticket of an accepted submission holds its texts, priorities, creator and customer, and no other ticket moves |
| Desk.CreationKeepsCustomers | apps/tickets/services.py:458-473 | a new address gets the given name, staff correct a known one, the public and blank names do not, and no other customer moves |
| Desk.OnlyCreationsChangeTheDesk | apps/tickets/services.py:88-95 | a submission that is refused or collapsed leaves tickets, customers and budget as they were |
| Desk.EveryTicketIsAlive | apps/tickets/services.py:97-132 | every ticket of a desk is an intake ticket after a timely run of calls |
| IfMatch.ParseIfMatch | apps/tickets/views.py:63-81 | nothing is expected exactly without a header text, every echo of a version in any spelling and padding gives that version, and a header is refused exactly when what is left of it is no numeral |
| IfMatch.ETagIsQuotedDigits | apps/tickets/views.py:388 | the printed tag is digits between two quotes, as section 8.8.3 of RFC 9110 asks |
| IfMatch.ETagRoundTrip | apps/tickets/views.py:184 | for every version, its printed tag, the weak form with blanks after its prefix, the bare number and the padded forms parse back to that version |
| IfMatch.SignedNumbersParse | apps/tickets/views.py:63-81 | a signed number is read with its sign |
| IfMatch.SpellingsIdentify | apps/tickets/views.py:388 | two versions never share a spelling |
| IfMatch.EchoedTagPassesTheGuard | apps/tickets/services.py:374-386 | an echoed tag passes the version guard exactly when it is the row's own, and conflicts with both versions named otherwise |
| Helpdesk.ViewChangesOneTicket | apps/tickets/services.py:435-455 | storing one row and appending rows that point at it changes that ticket's view and no other |
| Helpdesk.TicketService.ChangeStatus | apps/tickets/services.py:138-186 | tables and answer are those of the atomic call, refusals included; the returned object is the stored row, and holds what was asked for: the new status, and the actor as owner exactly when a free ticket enters IN_PROGRESS |
| Helpdesk.TicketService.Assign | apps/tickets/services.py:189-244 | the same for assignment, reassignment and release |
| Helpdesk.TicketService.ChangePriority | apps/tickets/services.py:247-275 | the same for reclassification |
| Helpdesk.TicketService.UpdateDetails | apps/tickets/services.py:278-313 | the same for edits of subject and description |
| Helpdesk.TicketService.AddComment | apps/tickets/services.py:316-352 | the same for comments; the answer is the comment appended, with the given text stripped, its author and its visibility |
| Helpdesk.TicketService.Update | apps/tickets/models.py:115-131 | a partial update stores the named columns, or nothing if the row would fail a check constraint; a consistent table stays consistent |
| Helpdesk.TicketService.Save | apps/tickets/services.py:427-432 | the stored row is the object in memory with its version moved, and the database does not refuse it |
| Helpdesk.TicketService.ApplyAssignment | apps/tickets/services.py:389-407 | the object gets its owner and, once, its first-assignment stamp; the event is recorded and the named columns cover the change |
| Helpdesk.TicketObject.ApplyStatusTimestamps | apps/tickets/services.py:410-424 | the stamps follow the new status, and the named columns cover the change |
| Helpdesk.TicketObject.ApplyText | apps/tickets/services.py:292-298 | the object gets the stripped texts, and the list holds exactly the real changes with their old values |
| Helpdesk.TicketService.RecordEdits | apps/tickets/services.py:303-312 | the loop records one event per changed text, in order |
| Helpdesk.TicketService.FindRecentDuplicate | apps/tickets/services.py:503-511 | answers the newest matching ticket, or none exactly when none matches |
| Helpdesk.TicketService.EnforceEmailRateLimit | apps/tickets/throttling.py:52-60 | refuses, and spends nothing, exactly when as many grants as the limit count for the normalised address, otherwise spends one grant of that address only; every budget stays kept in every window |
| Helpdesk.TicketService.ResolveCustomer | apps/tickets/services.py:458-473 | a new address creates a customer under its normalised form; only an agent corrects a known name, and no other customer is touched |
| Helpdesk.TicketService.CreateTicket | apps/tickets/services.py:61-132 | replays a recent duplicate, else refuses over budget, else inserts the ticket with its events, customer and grant, and moves nothing else; without flag and key it never replays |

## Left out

- Routing, serializers' field validation, OpenAPI, admin, settings, seed data, tokens, health check, logging and the error envelope: no invariant to prove.
- Pagination, filtering and ordering of lists other than the timeline and the comments: done by libraries that are not part of this model.
- The internals and cache time-outs of the library's rate throttle: the sliding window is an assumption, stated above. The per-address limit of the edge (`public_ticket_create`) is not modelled.
- Intake under concurrency: the design accepts that simultaneous identical creations both succeed.
- Deletion and renaming of users: they bypass the service, and `SET_NULL` changes an owner without event or version.
- The 32-bit range of the version column: versions are unbounded.
- The model-level refusal of `save` and `delete` on comments and events: the service only inserts, and `Runs.VersionNeverFalls` shows that both tables only grow.
- Rollback on a failing statement inside a transaction: no statement of a mutator can fail, since no update is refused; in the concurrent model a transaction may still abort at any step.
- The locked read and the three guards are one step each; a waiting request is simply not served until the lock is free, and nothing is claimed about how long it waits.
- The text of `int()` beyond ASCII digits with a sign and blanks (underscores, other digits): such headers are refused by the model.
- The payload of `assignee_id` in any spelling but the canonical public id or null.
- Validation of the response bodies, which read the ticket again after the commit.
- Staleness.AppliedAsPermittedIff: where a request can be overtaken, the calls that overtake it need readings of the clock between now and the request's own; a run too short for them is not considered.
