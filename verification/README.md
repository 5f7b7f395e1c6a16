# BookSwap: verified model of its state machines

This project models the following parts of the BookSwap API in Dafny and proves what they promise. `dafny verify
dfyconfig.toml` checks all of it.

**Guest loans** (`GuestModel`, `GuestSteps`, `GuestInvariant`, `GuestWrites`, `GuestPreserve`, `GuestUpkeep`,
`GuestRuns`, `GuestDates`, `GuestEffects`, `GuestGaps`, `GuestDb`). Contacts, copies, loans, confirmations, the append-only event log and the rejection
notices are one world; every transaction is a step of it, and any interleaving from empty tables is a run. One
invariant ties the rows together: each guest loan's rows say exactly what its events say, each copy is where its
outstanding loan says it is, and each contact's cached `retainUntil` is the date the rules give. `GuestDates` tells that
date, and `GuestEffects` every transaction, by row columns and log entries alone. `GuestGaps` carries the invariant over
to tables that are older than the cache, where dates may be missing. `GuestDb` is the database as an object whose methods
perform the transactions statement by statement.

**The retention run** (`GuestCleanup`): the two keyset loops over batches of 200. Rows that somebody else holds locked
are skipped, and between two batches any transactions may commit.

**The guest protocol** (`Framing`, `GuestProtocol`, `ProtocolSafety`, `ProtocolLimits`, `ProtocolEffects`,
`GuestRefinement`): link, code, proof, one answer, with their terms and counters and the clean-ups after failed letters,
which may fall between any two other steps. `GuestRefinement` shows that each confirmation of the world is a run of this protocol.

**Locks** (`LockOrder`, `LockPlans`, `GuestLocks`, `GuestLockCover`, `GuestLockRuns`, `WorkOwnership`): a transaction is
the list of locks it takes; a discipline on each list excludes wait-for cycles, the operations on guest loans and those
of the loan service keep it, and each writes only rows that its list names. `GuestLockRuns` puts locks and data into one
machine: what a transaction reads under a lock stays true until it ends. The catalog's lock-then-recheck against rows
that move between works is a state machine of its own.

**The catalog** (`EditionLanguage`, `AuthorLinks`, `CatalogModel`, `CatalogRules`, `CatalogAudit`, `CatalogDrift`,
`CatalogEffects`, `CatalogDb`): language rules I1 to I3, cascades, merges with their authors, optimistic revisions and the audit chain, and
exactly where a merge takes the audit of a work out of step with the work.

**Friendships and invitations** (`Friendship`, `FriendshipRuns`, `FriendshipSafety`, `FriendshipEffects`, `FriendshipDb`,
`InvitationLimits`): each transaction reads, decides by the table and writes under a condition, and others may
commit in between.

**Shutdown of the auth service** (`Shutdown`): two gates, two live sets and one deadline, turn by turn; a workflow is a
program with its place in it, and a log says what it did when.

## Modelling choices

- Ids are natural numbers and are never reused. Time is a natural number of milliseconds from a clock that never
  runs backwards; one transaction reads it once, after its locks. Calendar days are counted from the epoch.
- HMAC and SHA-256 are taken to be injective: the framed message stands for its MAC and a secret for its hash.
  Lengths in the framing are counted in characters. `trim` and `toLowerCase` are modelled on ASCII.
- A confirmation is keyed by its loan (`loanId` is unique and both are created together).
- Conditional updates of rows that the transaction has just read under their lock are unconditional writes.
- A time column with the default `now()` carries the start of its transaction, which lies before the locks. This is
  one assumption for the two such columns that rules read: the `occurredAt` of a loan event is any time up to the clock
  its transaction reads, and the `createdAt` of an invitation any time between the clock its count went by and the
  moment of the count. A contact's `createdAt` is set by the service, from a clock it reads before the insert.
- A clean-up of invitations goes by a clock of its own.
- A registered loan exists only as a pending request for an available copy, made by the environment.
- The transition table of guest loans is the one in `apps/api/src/loans/loan.transitions.ts:487-549`.

## What turned out differently

- A failed letter with a code never touches a newer code or an earned proof. A failed letter with a *link* does
  undo a proof earned under that same link (`ProtocolSafety.LinkBounceCanUndoProof`); exactly when, is
  `ProtocolSafety.LinkBounceUndoesExactly`.
- The time granted to the two shutdown phases, added up, may exceed the one budget
  (`Shutdown.GrantsMayExceedBudget`; exactly when, `Shutdown.GrantsFitExactlyWhen`). The time they can spend
  waiting never does (`Shutdown.WaitsFitBudget`).
- `createEmailWith` reads the clock before its locks. A hash clean-up that goes by a later clock can turn a refusal into
  leave, and only that (`InvitationLimits.ForgettingCanOvertakeTheClock`, a run with and without the clean-up); exactly
  when, is `InvitationLimits.ForgettingChangesDecisionExactlyWhen`.
- A work's snapshot holds its authors, and a merge moves authors without counting a revision or writing an audit row, as
  the comment at `apps/api/src/catalog/catalog.service.ts:411-424` says. So the audit rows of a work do not tell every
  change: a target that was corrected before and gets an author falls out of step at once
  (`CatalogDrift.MergeKeepsExactExactlyWhen`), its next correction leaves a gap (`CatalogDrift.MergeLeavesGap`, a run),
  and a corrected source no longer ends at its last row. Exactly when, over whole runs, are
  `CatalogDrift.RowsLinkExactlyWhen` and `CatalogDrift.ExactExactlyWhen`. Numbers never gap, and nothing but authors
  drifts (`CatalogAudit.RunKeepsRules`).
- A recovery after a closure is meant to leave the contact's date alone (`apps/api/src/external-borrowers/retention.ts:77-78`).
  A recovery that began before the closure but commits after it carries the earlier time and brings the date forward
  (`GuestRuns.RecoveryCanOvertakeClosure`, a run); exactly when, is `GuestRuns.RecoveryMovesDateExactlyWhen`.
- The limit per inviter and day holds over every sliding day. The limit per recipient and week holds over every sliding
  week as long as no clean-up has gone by a clock later than the stamp a new letter gets; for every later clock that
  lets the clean-up forget anything there is a run with four letters in one week
  (`InvitationLimits.ThreePerWeekExactlyWhen`).
- In `resolveEditionText` the last refusal of a kind for a linked edition (`edition-language.ts:139-149`) cannot be
  reached: `EditionLanguage.Resolve` proves the branch dead, because a link goes only where the patch says so
  (`EditionLanguage.UnlinkingIsExplicit`).
- A merge writes editions before translations (`merge.service.ts:61-86`), not in the order the comment in
  `catalog-locks.ts:3-13` gives. `WorkOwnership.NoWaitCycle` holds nevertheless: a merge first locks its works, and
  whoever else waits for rows of these works holds nothing a merge can want.
- Proof provenance speaks of addresses and nicknames after trimming and lower-casing, as the MAC does.

## Model

| member | source | states |
|---|---|---|
| GuestRuns.RunKeepsInv | apps/api/src/loans/guest-loan.service.ts:143-548 | in every run of all transactions the rows agree with the events, the copies with their loans and the cached dates with the rules |
| GuestRuns.CustodyAlways | apps/api/src/loans/guest-loan.service.ts:187-228 | a copy is home exactly when no guest loan is outstanding on it; never two are; contact and status follow the loan, also after the contact is deleted |
| GuestRuns.DatabaseNeverRefuses | apps/api/prisma/migrations/20260929090100_stage10_guest_confirmation_expand/migration.sql:60-63 | the CHECKs on Copy, this one in its latest form and the others as in `20260926090100_stage10_expand`, and the unique indexes on recoveries, closures and active loans (`20260926110100_stage10_exclusive_pending/migration.sql:10-12`) never fire |
| GuestRuns.SettlementOrder | apps/api/src/loans/guest-loan.service.ts:416-441 | no loan sees two recoveries, two closures or a closure after a recovery |
| GuestRuns.EventsTellTheState | apps/api/src/loans/guest-loan.service.ts:529-534 | folding a guest loan's events gives its status, its confirmation's status and its settlement |
| GuestRuns.NoIntegrityError | apps/api/src/loans/guest-loan.mapper.ts:87-98 | neither `candidateFor` nor `evidenceOfActive` ever meets rows it would throw on |
| GuestRuns.CacheAlwaysExact | apps/api/src/external-borrowers/retention.ts:143-180 | the stored `retainUntil` is the one date the rules give, after every operation |
| GuestRuns.RecoveryMovesCandidateExactlyWhen | apps/api/src/external-borrowers/retention.ts:70-86 | for every loan, log and stamp: a recovery of a settled loss moves what the loan asks for if and only if it is stamped before every settlement |
| GuestRuns.RecoveryMovesDateExactlyWhen | apps/api/src/external-borrowers/retention.ts:70-86 | in every run: recovering a closed loss moves the contact's date if and only if it began before the closure's time, no loan runs and no other loan asks for as much; then forward |
| GuestRuns.RecoveryAfterClosureKeepsDate | apps/api/src/external-borrowers/retention.ts:77-78 | a recovery that began no earlier than the closure is stamped leaves the contact's date as it was |
| GuestRuns.RecoveryCanOvertakeClosure | apps/api/prisma/migrations/20260926090100_stage10_expand/migration.sql:51 | a run in which a recovery begins before a closure, commits after it and moves the date |
| GuestRuns.RejectionIsAnnounced | apps/api/src/loans/guest-loan.service.ts:258-309 | a pending request is rejected exactly when it has its one notice and its response time |
| GuestRuns.BooksDoGetLent | apps/api/src/loans/guest-loan.service.ts:143-248 | a run from empty tables in which a book goes out to a guest |
| GuestRuns.BatchFindsNothing | apps/api/src/external-borrowers/guest-contact-retention-cleanup.service.ts:77-115 | where the cache is exact a backfill batch changes nothing |
| GuestGaps.NextKeepsGaps | apps/api/src/external-borrowers/retention.ts:143-180 | no transaction but the retention run reads a date: on tables with missing dates it does what it does on complete ones |
| GuestGaps.NextKeepsSound | apps/api/src/external-borrowers/retention.ts:143-180 | from dates that are exact or missing every step leaves such dates, and all other rules of the tables |
| GuestModel.EarliestIsMinimum | apps/api/src/external-borrowers/retention.ts:79-82 | the reduce over closure dates yields the earliest of them |
| GuestDates.StoredDateInColumns | apps/api/src/external-borrowers/retention.ts:62-121 | in every run, by loan columns and log entries alone: the stored date is 90 days after the creation of a contact without loans, none while a loan occupies a copy, and otherwise the latest of 90 days after a return, after the earliest settlement of a loss and after a cancellation, and 365 days after a loss nobody has settled |
| GuestDates.CandidateInColumns | apps/api/src/external-borrowers/retention.ts:62-100 | what one finished guest loan asks for, by its columns and entries |
| GuestDates.IntegrityErrors | apps/api/src/external-borrowers/retention.ts:62-121 | which rows `candidateFor` throws on, and what it throws for each |
| GuestInvariant.RetentionUnique | apps/api/src/external-borrowers/retention.ts:62-180 | the retention rules give a contact at most one date |
| GuestInvariant.RetentionExists | apps/api/src/external-borrowers/retention.ts:62-180 | and on good rows they give one |
| GuestInvariant.CandidateExists | apps/api/src/external-borrowers/retention.ts:62-121 | no integrity error is possible for a finished guest loan |
| GuestInvariant.StoryHasItsEvents | apps/api/src/loans/guest-loan.service.ts:529-534 | what a replayed state implies about the events behind it |
| GuestWrites.WrittenKeepsInv | apps/api/src/loans/guest-loan.service.ts:187-243 | a write that fits its loan and copy keeps the whole invariant, whatever the other rows are |
| GuestPreserve.ChainIsPending | apps/api/src/loans/guest-loan-confirmation.service.ts:492-519 | an open or denied confirmation always has loan, copy and contact pending with it, so the state-mismatch refusal is unreachable |
| GuestPreserve.TableRequirementHolds | apps/api/src/loans/guest-loan.service.ts:491-502 | the copy always has the status the table requires |
| GuestPreserve.EvidenceExists | apps/api/src/loans/guest-loan.mapper.ts:87-98 | a loan shown as history was recorded by the owner or received by the guest |
| GuestPreserve.HandoverDatesOrdered | apps/api/src/loans/guest-loan.service.ts:608-623 | accepted dates: handed over by today, due no earlier |
| GuestEffects.HandoverNeeds | apps/api/src/loans/guest-loan.service.ts:149-193 | exactly when a handover to a guest is accepted |
| GuestEffects.HandoverRefusals | apps/api/src/loans/guest-loan.service.ts:155-193 | and which refusal is given for what |
| GuestEffects.Lent | apps/api/src/loans/guest-loan.service.ts:194-248 | a recorded handover: the copy out with the contact, the loan with its dates, one event, pending requests turned down, nothing else |
| GuestEffects.Opened | apps/api/src/loans/guest-loan-confirmation.service.ts:196-249 | a handover to be confirmed: the copy reserved for the contact, loan and confirmation pending, one event, nothing else |
| GuestEffects.ActionNeeds | apps/api/src/loans/guest-loan.service.ts:383-475 | exactly when return, loss, recovery and closure are accepted |
| GuestEffects.ActionRefusals | apps/api/src/loans/guest-loan.service.ts:383-475 | and which refusal is given for what |
| GuestEffects.ReturnedInColumns | apps/api/src/loans/loan.transitions.ts:494-504 | a return: loan RETURNED and stamped now, copy AVAILABLE at its owner, one event, nothing else but the date |
| GuestEffects.LostInColumns | apps/api/src/loans/loan.transitions.ts:505-519 | a loss: loan LOST, copy UNAVAILABLE where it was, one event |
| GuestEffects.RecoveredInColumns | apps/api/src/loans/loan.transitions.ts:520-535 | a recovery: loan still LOST, copy AVAILABLE at its owner, one event with the day given or now |
| GuestEffects.ClosedInColumns | apps/api/src/loans/loan.transitions.ts:536-549 | a closure: one event, no row moves but the date |
| GuestEffects.ReturnedCanBeLent | apps/api/src/loans/guest-loan.service.ts:180-193 | a copy that came back and is not archived can be lent again at once |
| GuestEffects.DecisionNeeds | apps/api/src/loans/guest-loan-confirmation.service.ts:271-292 | exactly when the owner may decide |
| GuestEffects.DecisionRefusals | apps/api/src/loans/guest-loan-confirmation.service.ts:271-292 | and which refusal is given for what |
| GuestEffects.CancelledInColumns | apps/api/src/loans/guest-loan-confirmation.service.ts:293-331 | a cancelled handover: loan CANCELLED, copy AVAILABLE at its owner, confirmation over, one event |
| GuestEffects.RecordedInColumns | apps/api/src/loans/guest-loan-confirmation.service.ts:293-331 | a handover the owner states: loan and copy out with the contact, confirmation over, one event, pending requests turned down |
| GuestEffects.AnswerNeeds | apps/api/src/loans/guest-loan-response.service.ts:283-327 | exactly when an answer is accepted, by the columns of the confirmation |
| GuestEffects.AnswerInColumns | apps/api/src/loans/guest-loan-response.service.ts:328-416 | what an answer leaves: a receipt puts loan and copy out and turns requests down, a denial only closes the link; either gives the contact its proven identity |
| GuestEffects.LinkNeeds | apps/api/src/loans/guest-loan-confirmation.service.ts:401-420 | exactly when a link is issued, and the refusals |
| GuestEffects.LinkInColumns | apps/api/src/loans/guest-loan-confirmation.service.ts:421-434 | a fresh link is the only thing its row has, for seven days; no other row moves |
| GuestEffects.GuestIsToldTheReply | apps/api/src/loans/guest-loan-response.service.ts:436-492 | the guest is told what the locked row says, and only that row moves |
| GuestEffects.DeletionNeeds | apps/api/src/external-borrowers/external-borrowers.service.ts:112-165 | a contact can be deleted exactly if no loan of it occupies a copy and no loss of it is open |
| GuestEffects.DeletionRefusals | apps/api/src/external-borrowers/external-borrowers.service.ts:112-165 | and which refusal is given for what |
| GuestEffects.NewRows | apps/api/src/external-borrowers/external-borrowers.service.ts:37-50 | a new contact from its given beginning, kept 90 days; a new copy at home; a request only for a copy that is at home |
| GuestEffects.CleanedInColumns | apps/api/src/external-borrowers/guest-contact-retention-cleanup.service.ts:196-213 | a cleanup deletes exactly those of its contacts whose date has passed and that no loan occupies a copy for |
| GuestEffects.StatusEdited | apps/api/src/library/library.service.ts:250-304 | a status edit sets what was chosen exactly on an own copy at home that no loan occupies |
| GuestEffects.ArchivedInColumns | apps/api/src/library/library.service.ts:334-399 | archiving stamps the copy and turns its requests down, exactly if no loan occupies it; a second time changes nothing |
| GuestEffects.RestoredAndRemoved | apps/api/src/library/library.service.ts:313-327 | an own copy is restored as it was, and removed exactly if no loan was ever made of it |
| GuestPreserve.LendKeepsInv | apps/api/src/loans/guest-loan.service.ts:143-248 | recording a guest loan keeps the invariant |
| GuestPreserve.OpenConfirmationKeepsInv | apps/api/src/loans/guest-loan-confirmation.service.ts:149-249 | opening a confirmation keeps the invariant |
| GuestPreserve.ApplyKeepsInv | apps/api/src/loans/guest-loan.service.ts:343-548 | return, loss, recovery and closure keep the invariant |
| GuestPreserve.DecideKeepsInv | apps/api/src/loans/guest-loan-confirmation.service.ts:271-331 | both decisions of the owner keep the invariant |
| GuestPreserve.AnswerKeepsInv | apps/api/src/loans/guest-loan-response.service.ts:283-416 | the guest's answer keeps the invariant |
| GuestUpkeep.RequestKeepsInv | apps/api/src/loans/guest-loan-response.service.ts:116-264 | link, code and proof steps keep the invariant |
| GuestUpkeep.AddContactKeepsInv | apps/api/src/external-borrowers/external-borrowers.service.ts:37-50 | a new contact gets its exact date |
| GuestUpkeep.DeletionForgetsOnlyThePerson | apps/api/src/external-borrowers/external-borrowers.service.ts:112-165 | after a deletion no row refers to the contact, and every loan, event and notice is as it was |
| GuestUpkeep.EraseKeepsInv | apps/api/src/external-borrowers/external-borrowers.service.ts:112-165 | the guarded deletion keeps the invariant |
| GuestUpkeep.EditStatusKeepsInv | apps/api/src/library/library.service.ts:250-304 | the owner's status edit keeps custody |
| GuestUpkeep.ArchiveKeepsInv | apps/api/src/library/library.service.ts:334-399 | archiving and its rejections keep the invariant |
| GuestUpkeep.RestoreKeepsInv | apps/api/src/library/library.service.ts:402-409 | restoring keeps the invariant |
| GuestUpkeep.RemoveKeepsInv | apps/api/src/library/library.service.ts:313-327 | removing a copy without history keeps the invariant |
| GuestUpkeep.CleanedKeeps | apps/api/src/external-borrowers/guest-contact-retention-cleanup.service.ts:135-226 | one cleanup batch keeps the rows good and the remaining dates as they were |
| GuestDb.Db.RetentionDate | apps/api/src/external-borrowers/retention.ts:143-177 | the computed date is the date of the rules and, on good rows, the one told by columns and log entries; or a finished loan's rows cause the error returned |
| GuestDb.Db.RecomputeRetainUntil | apps/api/src/external-borrowers/retention.ts:143-180 | on good rows it never throws, writes that date and nothing else |
| GuestDb.Db.RejectRequestedRivals | apps/api/src/loans/guest-loan.service.ts:258-309 | exactly the pending requests for the copy are rejected, each with one notice |
| GuestDb.Db.CreateGuestLoan | apps/api/src/loans/guest-loan.service.ts:143-248 | reply and new tables of `POST /loans/guest`, every error case included |
| GuestDb.Db.ApplyTransition | apps/api/src/loans/guest-loan.service.ts:343-548 | reply and new tables of the four actions; the state mismatches are proved unreachable |
| GuestDb.Db.CreateConfirmation | apps/api/src/loans/guest-loan-confirmation.service.ts:149-249 | reply and new tables of opening a confirmation |
| GuestDb.Db.ApplyAction | apps/api/src/loans/guest-loan-confirmation.service.ts:271-331 | reply and new tables of the owner's decision |
| GuestDb.Db.RotateLink | apps/api/src/loans/guest-loan-confirmation.service.ts:401-434 | reply and new row of a link issue |
| GuestDb.Db.AskForCode | apps/api/src/loans/guest-loan-response.service.ts:119-157 | reply and new row of a code request |
| GuestDb.Db.CheckCode | apps/api/src/loans/guest-loan-response.service.ts:199-259 | reply and new row of a code check, a wrong code being committed |
| GuestDb.Db.CodeLetterFailed | apps/api/src/loans/guest-loan-response.service.ts:171-188 | the clean-up finds its row by the nonce only |
| GuestDb.Db.LinkLetterFailed | apps/api/src/loans/guest-loan-confirmation.service.ts:366-384 | the clean-up finds its row by the token only |
| GuestDb.Db.ApplyAnswer | apps/api/src/loans/guest-loan-response.service.ts:283-416 | reply and new tables of an answer, including the contact's verified identity |
| GuestDb.Db.CreateContact | apps/api/src/external-borrowers/external-borrowers.service.ts:37-50 | the new contact and its date |
| GuestDb.Db.DeleteContact | apps/api/src/external-borrowers/external-borrowers.service.ts:112-165 | reply and new tables of a deletion with its SET NULL effects |
| GuestDb.Db.UpdateCopy | apps/api/src/library/library.service.ts:269-302 | reply and new tables of a status edit |
| GuestDb.Db.ArchiveCopy | apps/api/src/library/library.service.ts:334-399 | reply and new tables of archiving |
| GuestDb.Db.RestoreCopy | apps/api/src/library/library.service.ts:402-409 | reply and new tables of restoring |
| GuestDb.Db.RemoveCopy | apps/api/src/library/library.service.ts:313-327 | reply and new tables of removing |
| GuestCleanup.CleanupService.Run | apps/api/src/external-borrowers/guest-contact-retention-cleanup.service.ts:55-68 | the two phases one after the other, batch by batch, whatever others commit in between; the counts are the contacts visited |
| GuestCleanup.CleanupService.BackfillPhase | apps/api/src/external-borrowers/guest-contact-retention-cleanup.service.ts:77-115 | the keyset loop, with others at work, is the sequence of its batches |
| GuestCleanup.CleanupService.CleanupPhase | apps/api/src/external-borrowers/guest-contact-retention-cleanup.service.ts:135-226 | the same for the cleanup loop |
| GuestCleanup.VisitedOnce | apps/api/src/external-borrowers/guest-contact-retention-cleanup.service.ts:70-76 | no contact is selected twice, and while a phase runs every batch was full |
| GuestCleanup.SteadyIsVisited | apps/api/src/external-borrowers/guest-contact-retention-cleanup.service.ts:70-76 | whoever stayed wanted and free has been visited when the phase ends |
| GuestCleanup.BatchesKeepSound | apps/api/src/external-borrowers/guest-contact-retention-cleanup.service.ts:55-68 | the rules of the tables hold before and after every batch |
| GuestCleanup.CleanupBatchDeletes | apps/api/src/external-borrowers/guest-contact-retention-cleanup.service.ts:140-213 | whatever was committed before it, a batch deletes exactly what it selected: contacts nobody held whose stored date, the date of the rules, has passed, without an active loan |
| GuestCleanup.BackfillBatchFills | apps/api/src/external-borrowers/guest-contact-retention-cleanup.service.ts:82-105 | a batch gives exactly the contacts it selected, which nobody held and which had none, their date and moves nothing else |
| GuestCleanup.TotalCountsVisits | apps/api/src/external-borrowers/guest-contact-retention-cleanup.service.ts:107-111 | the count returned is the number of contacts visited |
| GuestCleanup.CleanupService.CleanupBatch | apps/api/src/external-borrowers/guest-contact-retention-cleanup.service.ts:140-215 | one batch deletes what is still due and has no active loan |
| GuestCleanup.SweepDeletesExactly | apps/api/src/external-borrowers/guest-contact-retention-cleanup.service.ts:196-213 | a contact goes if and only if it was visited, has a date and the rules say it has passed; never with an active loan |
| GuestCleanup.ExpiredMeansNothingRuns | apps/api/src/external-borrowers/retention.ts:62-121 | for a contact that may go no loan occupies a copy, and 90 days after each return, settlement or cancellation, or 365 after an unsettled loss, are over; without loans 90 days after its creation |
| GuestCleanup.SweepLeavesNothingDue | apps/api/src/external-borrowers/guest-contact-retention-cleanup.service.ts:55-68 | after an undisturbed run nobody is due and only active contacts lack a date |
| GuestCleanup.SweptTwice | apps/api/src/external-borrowers/guest-contact-retention-cleanup.service.ts:30-45 | a second run at the same time changes no row |
| GuestCleanup.QuietPhaseEnds | apps/api/src/external-borrowers/guest-contact-retention-cleanup.service.ts:77-226 | left alone, a phase ends after a bounded number of batches |
| GuestCleanup.UndisturbedRunSweepsAll | apps/api/src/external-borrowers/guest-contact-retention-cleanup.service.ts:77-226 | left alone, the batches of both phases add up to one sweep over all contacts |
| Framing.FramedReadBack | apps/api/src/loans/guest-confirmation-secrets.ts:59-64 | domain and parts can be read back from the framed message |
| Framing.FramedIsInjective | apps/api/src/loans/guest-confirmation-secrets.ts:59-64 | equal messages mean equal domains and equal parts, for domains without the separator |
| Framing.SeparatorInDomainCollides | apps/api/src/loans/guest-confirmation-secrets.ts:59-64 | with a separator in the domain two inputs collide |
| Framing.ChallengeMacIsInjective | apps/api/src/loans/guest-confirmation-secrets.ts:27-34 | a challenge determines confirmation, canonical address and trimmed nickname |
| Framing.CodeHashIsInjective | apps/api/src/loans/guest-confirmation-secrets.ts:37-39 | a code hash determines confirmation, challenge and code |
| Framing.DomainsNeverCollide | apps/api/src/loans/guest-confirmation-secrets.ts:27-39 | no challenge equals a code hash |
| Framing.TrimTakesBlanksOnly | apps/api/src/loans/guest-confirmation-secrets.ts:27-34 | a nickname is compared without the blanks around it and with nothing else missing |
| Framing.CanonicalInLetters | apps/api/src/loans/guest-confirmation-secrets.ts:27-34 | an address is compared without the blanks around it and in small letters |
| ProtocolSafety.ChecksNeverFire | apps/api/prisma/migrations/20260929120100_stage10_guest_response_expand/migration.sql:30-61 | no request sequence violates a CHECK of the confirmation table or its counters' bounds |
| ProtocolSafety.AnswerProvenance | apps/api/src/loans/guest-loan-response.service.ts:283-327 | every accepted answer has its link, code and proof behind it, each within its term, nothing newer between |
| ProtocolSafety.AtMostOneAnswer | apps/api/src/loans/guest-loan-response.service.ts:375-386 | a confirmation accepts at most one answer, and no decision follows or precedes it wrongly |
| ProtocolSafety.NothingUnderUsedLink | apps/api/src/loans/guest-loan-response.service.ts:375-386 | after an answer nothing is issued or proved any more |
| ProtocolSafety.AnswerBindsAddress | apps/api/src/loans/guest-loan-response.service.ts:310-324 | the answer's address and nickname are those of the code, up to trimming and case |
| ProtocolSafety.CodeBounceClearsOnlyItsIssue | apps/api/src/loans/guest-loan-response.service.ts:171-188 | a failed code letter changes the row if and only if its own code still waits: not replaced, not proved, not used up by five wrong ones |
| ProtocolSafety.LinkBounceTakesBackItsLink | apps/api/src/loans/guest-loan-confirmation.service.ts:366-384 | a failed link letter changes the row if and only if its link is still the current one |
| ProtocolSafety.LinkBounceUndoesExactly | apps/api/src/loans/guest-loan-confirmation.service.ts:366-384 | over whole runs: it changes the row if and only if nothing has ended its link, and costs a proof if and only if one was earned under it and stands |
| ProtocolSafety.LinkBounceCanUndoProof | apps/api/src/loans/guest-loan-confirmation.service.ts:366-384 | a run in which it undoes an earned proof |
| ProtocolSafety.StepsInTimeSucceed | apps/api/src/loans/guest-loan-response.service.ts:116-416 | a guest who takes the steps in order and within their terms always gets through |
| ProtocolLimits.WrongCodesPerLink | apps/api/src/loans/guest-loan-response.service.ts:206-240 | at most ten wrong codes are compared between two links |
| ProtocolLimits.WrongCodesPerCode | apps/api/src/loans/guest-loan-response.service.ts:225-240 | at most five wrong codes are compared per issued code |
| ProtocolLimits.CodesPerSpan | apps/api/src/loans/guest-loan-response.service.ts:131-153 | any half-open span of n hours holds at most 5n+4 codes of a link |
| ProtocolLimits.NineInOneHour | apps/api/src/loans/guest-loan-response.service.ts:131-153 | nine codes within one hour do occur |
| ProtocolEffects.LinkIssuedInColumns | apps/api/src/loans/guest-loan-confirmation.service.ts:401-434 | a link is issued for an open confirmation only, and is the only thing its row then has |
| ProtocolEffects.CodeSentExactlyWhen | apps/api/src/loans/guest-loan-response.service.ts:119-157 | in every run a code is sent if and only if the link stands, fewer than ten wrong codes were compared since it was issued and fewer than five codes sent in the hour that runs; each refusal exactly when |
| ProtocolEffects.SentCodeInColumns | apps/api/src/loans/guest-loan-response.service.ts:131-157 | what a sent code leaves, column by column |
| ProtocolEffects.CodeProvesExactlyWhen | apps/api/src/loans/guest-loan-response.service.ts:199-259 | in every run a code proves the address if and only if link and code stand, the ten wrong ones are not spent and it is the code that was sent |
| ProtocolEffects.CheckedCodeInColumns | apps/api/src/loans/guest-loan-response.service.ts:219-259 | a right code leaves the proof for thirty minutes; a wrong one counts once for its link and once for the code, and the fifth takes the code away |
| ProtocolEffects.AnswerCountsExactlyWhen | apps/api/src/loans/guest-loan-response.service.ts:283-327 | in every run an answer counts if and only if link and proof stand and it is for the proven address and nickname |
| ProtocolEffects.DecisionInColumns | apps/api/src/loans/guest-loan-confirmation.service.ts:271-316 | the owner may decide while the confirmation is open or denied, and that ends it |
| ProtocolEffects.BouncedCodeInColumns | apps/api/src/loans/guest-loan-response.service.ts:171-188 | a failed code letter takes its own code back, with the attempts at it; link and counts stay |
| ProtocolEffects.BouncedLinkInColumns | apps/api/src/loans/guest-loan-confirmation.service.ts:366-384 | a failed link letter takes back its own link and all that was done under it |
| GuestRefinement.WorldRefinesProtocol | apps/api/src/loans/guest-loan-response.service.ts:443-470 | in every run of the world a confirmation row is what the protocol computes from the requests that reached it |
| GuestRefinement.ReceivedMeansProven | apps/api/src/loans/guest-loan-response.service.ts:283-416 | a handover counts as received only after an answer with its whole chain of proof |
| GuestRefinement.RecordedIdentityIsProven | apps/api/src/loans/guest-loan-response.service.ts:404-411 | the identity written into the contact is the one that was proven |
| LockOrder.NoWaitCycle | apps/api/src/external-borrowers/retention.ts:29-44 | disciplined transactions never wait for each other in a circle |
| LockOrder.SomeoneCanMove | apps/api/src/external-borrowers/retention.ts:29-44 | while transactions are open one of them is not waiting |
| LockOrder.GetsThrough | apps/api/src/external-borrowers/guest-contact-retention-cleanup.service.ts:140-165 | a transaction that waits only for free rows gets through its list while others stand still, and then holds exactly the free ones: locked rows are skipped, nothing else is |
| GuestLocks.PlansAreDisciplined | apps/api/src/loans/guest-loan-confirmation.service.ts:440-485 | every operation's locks, those of `loan.service.ts` included, keep the order contact, copy, loan, confirmation by ascending id |
| GuestLocks.RivalsNeverWait | apps/api/src/loans/guest-loan.service.ts:258-280 | the late write to a pending request never waits: the copy's lock covers it |
| GuestLocks.SkipsExactly | apps/api/src/external-borrowers/guest-contact-retention-cleanup.service.ts:82-105 | only the two batches skip locked rows, and only contacts; everybody else waits |
| GuestLockCover.EveryWriteIsLocked | apps/api/src/loans/guest-loan.service.ts:349-421 | every row a transaction inserts, changes or deletes is among the rows its lock list names; without a list it writes nothing |
| GuestLockCover.StepsAreOrdered | apps/api/src/external-borrowers/external-borrowers.service.ts:112-135 | the list built from the rows found is always one the lock model admits |
| GuestLockCover.ChainIsLocked | apps/api/src/loans/guest-loan-confirmation.service.ts:440-485 | contact, copy, loan and confirmation that a transaction decides by are locked, written or not, and everything of a contact that is to go |
| GuestLockRuns.ReadsStayTrue | apps/api/src/loans/guest-loan.service.ts:349-421 | in every interleaving of locks and commits, a row read under a lock is the same until the transaction ends |
| GuestLockRuns.ChainStaysAsRead | apps/api/src/loans/guest-loan-confirmation.service.ts:492-519 | so a chain read under its locks is pending at the write if and only if it was pending when read |
| GuestLockRuns.CommitsAreSerial | apps/api/src/loans/guest-loan.service.ts:349-421 | however transactions interleave, the tables are those of their commits one after the other |
| GuestLockRuns.OperationsNeverDeadlock | apps/api/src/external-borrowers/retention.ts:29-44 | no run of the operations has a wait-for cycle |
| GuestLockRuns.RequestsNeverWait | apps/api/src/loans/loan.service.ts:606-617 | in no run of the operations, the loan service among them, does a write to a registered loan wait |
| GuestLockRuns.CommitsHappen | apps/api/src/external-borrowers/external-borrowers.service.ts:37-50 | a run in which a transaction takes its lock and commits |
| WorkOwnership.LockedWorkOwnsRow | apps/api/src/catalog/catalog-locks.ts:54-94 | when the lock succeeds the locked work owns the row |
| WorkOwnership.OwnedUntilCommit | apps/api/src/catalog/catalog-locks.ts:54-94 | and owns it until the transaction ends, whatever others do |
| WorkOwnership.NeverWaitsForSecondWork | apps/api/src/catalog/catalog-locks.ts:20-27 | a transaction waiting for a work holds no lock, and never holds two works |
| WorkOwnership.NoWaitCycle | apps/api/src/catalog/catalog-locks.ts:3-13 | patches, creations and merges never wait in a circle |
| WorkOwnership.RowCanMoveBeforeLock | apps/api/src/catalog/catalog-locks.ts:64-76 | a run in which only the second read notices the move |
| WorkOwnership.RowCanGoBeforeLock | apps/api/src/catalog/catalog-locks.ts:64-76 | a run in which the row is deleted before its work is locked |
| WorkOwnership.SecondReadDecides | apps/api/src/catalog/catalog-locks.ts:77-94 | the second read ends with work and row held, with every lock given back or with nothing found, exactly as the row is then |
| WorkOwnership.LockSucceeds | apps/api/src/catalog/catalog-locks.ts:54-94 | undisturbed, the protocol ends with work and row locked, and a further row of the work can follow |
| WorkOwnership.RetryWhenWorkMoved | apps/api/src/catalog/catalog-locks.ts:39-47 | at most three attempts; the result is the first that did not move, or the third |
| EditionLanguage.Resolve | apps/api/src/catalog/edition-language.ts:70-164 | the edits of the local state compute the resolution; the last refusal of a kind is dead code |
| EditionLanguage.UnlinkingIsExplicit | apps/api/src/catalog/edition-language.ts:121-149 | a linked edition loses its link exactly where the patch sends null |
| EditionLanguage.AcceptedFollowsRules | apps/api/src/catalog/edition-language.ts:70-164 | whatever was stored, an accepted patch leaves I1 to I3 true |
| EditionLanguage.ResolutionInFields | apps/api/src/catalog/edition-language.ts:70-164 | what an accepted patch makes of kind, link and language, field by field |
| EditionLanguage.RefusalsInFields | apps/api/src/catalog/edition-language.ts:70-164 | which refusal is given for what |
| EditionLanguage.SentLanguageIsKept | apps/api/src/catalog/edition-language.ts:8-11 | a language that was sent is the result or the call is refused |
| EditionLanguage.KnownLanguageSurvives | apps/api/src/catalog/edition-language.ts:98-109 | a stored language other than the implied one survives or the call is refused |
| EditionLanguage.UnlinkingTrustsTheRules | apps/api/src/catalog/edition-language.ts:121-135 | without I2 unlinking would replace a stored language |
| EditionLanguage.AcceptedPatchIsIdempotent | apps/api/src/catalog/edition-language.ts:70-164 | an accepted patch applied twice equals once |
| EditionLanguage.AcceptedExactlyWhen | apps/api/src/catalog/edition-language.ts:70-164 | the exact condition under which a patch is accepted |
| EditionLanguage.PlanChange | apps/api/src/catalog/edition-language.ts:185-206 | the loop computes the updates and the conflicts |
| EditionLanguage.UpdatesAreTheMoving | apps/api/src/catalog/edition-language.ts:195-203 | the updates are exactly the originals that follow |
| EditionLanguage.PlanSucceedsExactlyWhen | apps/api/src/catalog/edition-language.ts:185-206 | the plan succeeds if and only if no original has a third language |
| EditionLanguage.KnownLanguageNeverConflicts | apps/api/src/catalog/edition-language.ts:176-206 | changing a known original language never conflicts |
| EditionLanguage.MergedFollowsTarget | apps/api/src/catalog/edition-language.ts:219-230 | KEEP and SET satisfy I3 in the target; CONFLICT exactly for another known language |
| CatalogModel.SortingKeepsUpdates | apps/api/src/catalog/edition-language-cascade.ts:24-25 | sorting loses and invents no update |
| CatalogModel.SortingOrders | apps/api/src/catalog/edition-language-cascade.ts:24-25 | updates are written by ascending id |
| CatalogRules.CascadeSetsLanguage | apps/api/src/catalog/edition-language-cascade.ts:19-47 | a cascade sets the language of exactly the editions it names |
| CatalogRules.CreationKeepsRules | apps/api/src/catalog/catalog.service.ts:315-405 | a created edition satisfies I1 to I3, the others stay |
| CatalogRules.CreationIsNeverRefused | apps/api/src/catalog/catalog.service.ts:359-371 | a creation is never refused for its language |
| CatalogRules.PatchEditionKeepsRules | apps/api/src/catalog/catalog.service.ts:747-864 | a patched edition keeps I1 to I3 or nothing changes |
| CatalogRules.PatchTranslationKeepsRules | apps/api/src/catalog/catalog.service.ts:632-718 | a patched translation takes its editions along |
| CatalogRules.PatchWorkKeepsRules | apps/api/src/catalog/catalog.service.ts:429-610 | a patched work takes its originals along or is refused |
| CatalogRules.KnownOriginalNeverConflicts | apps/api/src/catalog/catalog.service.ts:489-491 | a work with a known original language is never refused a new one |
| CatalogRules.MergeKeepsRules | apps/api/src/catalog/merge/merge.service.ts:47-174 | a merge keeps I1 to I3 in the target, translations with their editions, no author twice in one role, none on a merged work, and chains of merges one deep |
| CatalogRules.MergeSelects | apps/api/src/catalog/merge/merge.service.ts:136-174 | a merge fills in the language of exactly the originals that have none |
| CatalogEffects.WorkCreated | apps/api/src/catalog/catalog.service.ts:223-284 | a created work has what was sent, each author link once |
| CatalogEffects.TranslationCreated | apps/api/src/catalog/catalog.service.ts:291-312 | a translation is created on a canonical work or not at all |
| CatalogEffects.EditionCreated | apps/api/src/catalog/catalog.service.ts:315-405 | a created edition has the link and language its kind implies, exactly if work and translation fit |
| CatalogEffects.EditionCorrected | apps/api/src/catalog/catalog.service.ts:829-864 | an accepted edition patch stores link, kind, language and details that were sent, counts one revision, adds one audit row from the old to the new snapshot and touches nothing else |
| CatalogEffects.CorrectionStoresResolution | apps/api/src/catalog/catalog.service.ts:815-838 | and the stored text is the resolution of the old text and the patch |
| CatalogEffects.EditionRefusals | apps/api/src/catalog/catalog.service.ts:747-815 | which refusal an edition patch gets for what |
| CatalogEffects.TranslationCorrected | apps/api/src/catalog/catalog.service.ts:632-718 | an accepted translation patch stores what was sent; exactly the editions linked to it follow a new language |
| CatalogEffects.TranslationRefusals | apps/api/src/catalog/catalog.service.ts:632-680 | which refusal a translation patch gets for what |
| CatalogEffects.WorkCorrected | apps/api/src/catalog/catalog.service.ts:429-574 | an accepted work patch stores what was sent; exactly its originals follow a new language |
| CatalogEffects.WorkRefusals | apps/api/src/catalog/catalog.service.ts:429-500 | which refusal a work patch gets for what |
| CatalogEffects.StuckAreNamed | apps/api/src/catalog/catalog.service.ts:580-610 | a language conflict names exactly the originals in a third language |
| CatalogEffects.CascadeInFields | apps/api/src/catalog/edition-language-cascade.ts:19-47 | a cascade gives each edition it names its language and one revision, and no other edition anything |
| CatalogEffects.CascadeRows | apps/api/src/catalog/edition-language-cascade.ts:25-45 | and writes one audit row for each, in order |
| CatalogEffects.UnknownIsNotFound | apps/api/src/catalog/catalog.service.ts:429-790 | a patch of what is not there is not found |
| CatalogEffects.MergeInFields | apps/api/src/catalog/merge/merge.service.ts:47-114 | an accepted merge row by row: works, translations and editions that move, and that nothing else changes |
| CatalogEffects.MergeRefusals | apps/api/src/catalog/merge/merge.service.ts:47-60 | which refusal a merge gets for what |
| CatalogEffects.MergeConflictsExactlyWhen | apps/api/src/catalog/merge/merge.service.ts:136-174 | exactly an original of the source in another known language stands in the way |
| CatalogEffects.ClashesAreNamed | apps/api/src/catalog/merge/merge.service.ts:152-174 | and the conflict names exactly those |
| CatalogAudit.RunKeepsRules | apps/api/src/catalog/catalog.service.ts:239-864 | in every run the language rules hold; the rows of every entity are numbered without a gap; those of editions and translations tell every change, those of works every change but authors, which only merges add, and take from a work merged away |
| CatalogDrift.MergeKeepsExactExactlyWhen | apps/api/src/catalog/merge/merge.service.ts:370-407 | after one merge: when the audits of its target and of its source still tell every change, and that no other is touched |
| CatalogDrift.RowsLinkExactlyWhen | apps/api/src/catalog/catalog.service.ts:411-424 | in every run a work's rows link up if and only if no correction came after a merge that brought it an author |
| CatalogDrift.ExactExactlyWhen | apps/api/src/catalog/catalog.service.ts:411-424 | in every run the audit of a canonical work tells every change if and only if no merge brought it an author since its first correction; and when that of a merged one does |
| CatalogDrift.MergeLeavesGap | apps/api/src/catalog/merge/merge.service.ts:370-407 | a run with a gap: corrected, merged into, corrected again |
| CatalogAudit.OneCorrectionPerRevision | apps/api/src/catalog/catalog.service.ts:848-860 | revisions in the audit of an entity rise by one without repetition |
| CatalogAudit.OnePatchPerRevision | apps/api/src/catalog/catalog.service.ts:793-802 | of all patches naming one revision at most one is accepted, cascades in between included |
| CatalogAudit.CascadeKeepsAudit | apps/api/src/catalog/edition-language-cascade.ts:25-45 | every cascaded edition gets its gap-free audit row |
| CatalogDb.CatalogTables.ApplyEditionTextUpdates | apps/api/src/catalog/edition-language-cascade.ts:19-47 | the loop over the sorted updates, with its rows |
| CatalogDb.CatalogTables.AddEdition | apps/api/src/catalog/catalog.service.ts:315-405 | reply and new tables of a creation |
| CatalogDb.CatalogTables.CorrectEdition | apps/api/src/catalog/catalog.service.ts:747-864 | reply and new tables of an edition patch |
| CatalogDb.CatalogTables.CorrectTranslation | apps/api/src/catalog/catalog.service.ts:632-718 | reply and new tables of a translation patch |
| CatalogDb.CatalogTables.CascadeOriginalLang | apps/api/src/catalog/catalog.service.ts:580-610 | the originals follow, or the stuck editions are named and nothing changes |
| CatalogDb.CatalogTables.CorrectWork | apps/api/src/catalog/catalog.service.ts:429-574 | reply and new tables of a work patch, a list of authors replacing the stored one |
| CatalogDb.CatalogTables.ReconcileEditionLanguages | apps/api/src/catalog/merge/merge.service.ts:136-174 | the target's language is filled in, or the editions in another known language are named and nothing changes |
| CatalogDb.CatalogTables.MergeWorks | apps/api/src/catalog/merge/merge.service.ts:47-114 | reply and new tables of a merge |
| CatalogModel.PlanMerge | apps/api/src/catalog/merge/merge.service.ts:152-163 | the loop computes the updates and the conflicts |
| AuthorLinks.DedupeAuthorLinks | apps/api/src/catalog/catalog.service.ts:1033-1049 | the loop with its set of keys drops exactly the repetitions |
| AuthorLinks.KeyIsInjective | apps/api/src/catalog/catalog.service.ts:1040 | no two links share a key |
| AuthorLinks.DedupedKeepsFirsts | apps/api/src/catalog/catalog.service.ts:1027-1032 | first occurrences are kept, in order, one for every link |
| AuthorLinks.DedupedIsSet | apps/api/src/catalog/catalog.service.ts:1027-1032 | nobody is linked twice in one role |
| AuthorLinks.DedupedHasSame | apps/api/src/catalog/catalog.service.ts:1027-1032 | nobody is lost and nobody added |
| AuthorLinks.ConsolidateWorkAuthors | apps/api/src/catalog/merge/merge.service.ts:370-407 | the target's links, then those of the source it does not have, with the counts returned |
| AuthorLinks.ConsolidatedIsDeduped | apps/api/src/catalog/merge/merge.service.ts:357-368 | that is the two lists one after the other without repetitions: nobody is lost, nobody is twice in one role, and the order stays |
| AuthorLinks.CollectLinks | apps/api/src/catalog/catalog.service.ts:250-276 | the loop with `nextName` computes the created authors and the links |
| AuthorLinks.EachNameItsOwnNorm | apps/api/src/catalog/catalog.service.ts:250-276 | the loop never throws and each new author gets the normal form of their own name |
| AuthorLinks.EachLinkItsOwnPerson | apps/api/src/catalog/catalog.service.ts:250-276 | each link gets the role that was asked and the author named by id, or the one created for its name |
| AuthorLinks.BothWouldMisalign | apps/api/src/catalog/catalog.service.ts:228-233 | an author with id and name would shift the normal forms |
| Friendship.RelationsMirror | apps/api/src/access/friendship.pair.ts:111-124 | what each member sees, by status, requester and blocker; the two see the pair from opposite sides |
| Friendship.TransitionsWriteValidRows | apps/api/src/friends/friends.service.ts:311-366 | every transition writes a row the CHECKs accept |
| Friendship.OnlyBlockerUnblocks | apps/api/src/friends/friendship.transitions.ts:75-82 | from a blocked pair only the blocker's removal leads out |
| Friendship.FriendsOnlyByConsent | apps/api/src/friends/friendship.transitions.ts:84-139 | exactly which actions make friends |
| FriendshipRuns.RunKeepsInv | apps/api/src/friends/friends.service.ts:239-402 | the invariant of rows, readers in flight and uses in every interleaving |
| FriendshipSafety.OneOrderedRow | apps/api/src/access/friendship.pair.ts:62-71 | a pair has at most one row, in order |
| FriendshipSafety.BlockedByMember | apps/api/prisma/migrations/20260815195326_friendship_block_author_integrity/migration.sql:26-32 | blocked exactly when a member is recorded as the blocker |
| FriendshipSafety.OnlyBlockerEndsBlock | apps/api/src/friends/friendship.transitions.ts:75-82 | a block ends only by its author's removal, in every interleaving |
| FriendshipSafety.FriendsBothConsented | apps/api/src/friends/friendship.transitions.ts:84-139 | since their present row was created, each of two friends has asked, accepted, redeemed, or issued the invitation the other redeemed |
| FriendshipSafety.ConsentsAreForThisRow | apps/api/src/friends/friends.service.ts:263-268 | no consent is older than the row it is for |
| FriendshipSafety.RemovedStaysRemoved | apps/api/src/friends/friends.service.ts:263-268 | a removed row, and its consents with it, never comes back |
| FriendshipSafety.OpposingRequestsMeet | apps/api/src/friends/friends.service.ts:239-253 | two crossing requests end in one accepted row, both successful, after at most four statements each, with others at work on other pairs |
| FriendshipSafety.UsesWithinLimit | apps/api/src/invitations/invitations.service.ts:143-226 | acceptances never exceed `maxUses` |
| FriendshipSafety.OnceWithEachInvitation | apps/api/src/invitations/invitations.service.ts:186-192 | a person accepts an invitation at most once |
| FriendshipSafety.UseMeansNewFriendship | apps/api/src/invitations/invitations.service.ts:200-216 | a use is recorded exactly when it made the two friends |
| FriendshipSafety.NoUseForBlockedOrFriends | apps/api/src/invitations/invitations.service.ts:202-216 | blocked pairs and friends spend no use |
| FriendshipEffects.ActionLeavesBehind | apps/api/src/friends/friends.service.ts:299-402 | in every run, by the rows alone: after a write that succeeds the pair's one row is what the action says (blocked by the actor, pending from the actor, accepted, declined, or none), and no other row moves |
| FriendshipEffects.BlockBlocks | apps/api/src/friends/friendship.transitions.ts:67-71 | blocking from any state leaves the pair blocked by the actor |
| FriendshipEffects.BlockStands | apps/api/src/friends/friendship.transitions.ts:75-82 | and so it stands in every run until that person removes it |
| FriendshipEffects.TableAllows | apps/api/src/friends/friendship.transitions.ts:60-139 | exactly when the table lets an action through, by the row that was read |
| FriendshipEffects.TableRefuses | apps/api/src/friends/friendship.transitions.ts:60-139 | and which refusal it gives for what |
| FriendshipEffects.WriteAnswers | apps/api/src/friends/friends.service.ts:299-402 | how a write ends, by the row that was read and the row that is there |
| FriendshipEffects.UseNeedsOpenInvitation | apps/api/src/invitations/invitation.rules.ts:29-35 | in every run a use is spent only by a person whose clock lay before the expiry, on an invitation of somebody else that is not revoked, has uses left and was not redeemed by them |
| FriendshipEffects.RedeemerReads | apps/api/src/invitations/invitations.service.ts:157-199 | which refusal a redemption gets for what, by the fields of the invitation |
| FriendshipEffects.RouteReads | apps/api/src/friends/friends.service.ts:223-237 | what a route finds, by the rows alone |
| FriendshipEffects.InvitationsAreKept | apps/api/src/invitations/invitations.service.ts:84-97 | nothing but a revocation changes an invitation |
| FriendshipDb.Tables.FindPair | apps/api/src/access/access.service.ts:41-51 | finds the pair's one row if there is one |
| FriendshipDb.Tables.TransitionIn | apps/api/src/friends/friends.service.ts:299-402 | what each outcome of the table writes |
| FriendshipDb.Tables.Apply | apps/api/src/friends/friends.service.ts:223-253 | a friendship route is the read and write of the step model: it succeeds exactly where the row allows it and leaves the row the action says |
| FriendshipDb.Tables.AcceptOnce | apps/api/src/invitations/invitations.service.ts:157-226 | redeeming is the read and write of the step model: own, redeemed twice, gone if and only if revoked, expired or used up, and else one use for one new friendship |
| FriendshipDb.Tables.Revoke | apps/api/src/invitations/invitations.service.ts:84-97 | revoking, once and by the inviter only |
| InvitationLimits.TenPerDay | apps/api/src/invitations/invitations.service.ts:284-325 | any sliding day holds at most ten e-mailed invitations of an inviter, whatever stamps the rows get |
| InvitationLimits.AllowedExactlyWhen | apps/api/src/invitations/invitations.service.ts:284-312 | a letter is allowed if and only if fewer than ten rows of the inviter lie in the last day and fewer than three known to the recipient in the last week |
| InvitationLimits.ForgetsExactly | apps/api/src/invitations/invite-email-hash-cleanup.service.ts:55-61 | a clean-up forgets exactly the recipients of letters a week old |
| InvitationLimits.ThreePerWeek | apps/api/src/invitations/invitations.service.ts:284-325 | any sliding week holds at most three to a recipient, clean-ups included, in runs where none overtakes a stamp |
| InvitationLimits.ThreePerWeekExactlyWhen | apps/api/src/invitations/invitations.service.ts:284-325 | a stamp is safe in every run if and only if no clean-up able to forget has gone by a later clock |
| InvitationLimits.CountsAfterForgetting | apps/api/src/invitations/invite-email-hash-cleanup.service.ts:55-61 | a clean-up leaves the count per inviter and makes the count per recipient go by the later of the two clocks |
| InvitationLimits.ForgettingChangesDecisionExactlyWhen | apps/api/src/invitations/invite-email-hash-cleanup.service.ts:55-61 | the exact condition under which a clean-up changes a decision; it only ever turns a refusal into leave |
| InvitationLimits.ForgettingKeepsDecisions | apps/api/src/invitations/invite-email-hash-cleanup.service.ts:55-61 | so it changes no decision whose clock was read at or after it |
| InvitationLimits.ForgettingCanOvertakeTheClock | apps/api/src/invitations/invitations.service.ts:282-300 | two runs that differ in one clean-up: the fourth letter is refused in one and sent in the other |
| InvitationLimits.InviteTable.CreateEmail | apps/api/src/invitations/invitations.service.ts:284-325 | count and insert under the locks, and which limits they keep |
| InvitationLimits.InviteTable.CleanUp | apps/api/src/invitations/invite-email-hash-cleanup.service.ts:55-69 | recipients out of the window are forgotten, both limits stay |
| Shutdown.WaitsFitBudget | apps/api/src/auth/auth-shutdown-budget.ts:22-48 | all waiting of any number of phases fits the one budget |
| Shutdown.RemainingShrinks | apps/api/src/auth/auth-shutdown-budget.ts:37-47 | what is left never grows, never exceeds the whole, and is nothing from the deadline on |
| Shutdown.GrantsMayExceedBudget | apps/api/src/auth/auth.service.ts:334-352 | the phase budgets added up can exceed the whole |
| Shutdown.GrantsFitExactlyWhen | apps/api/src/auth/auth.service.ts:334-352 | exactly when they do not |
| Shutdown.RunKeepsInv | apps/api/src/auth/auth.service.ts:164-320 | the invariant of gates, live sets and phases in every interleaving |
| Shutdown.EmailGateClosesLast | apps/api/src/auth/auth.service.ts:178-187 | the e-mail gate is closed only while no workflow is live |
| Shutdown.NoEmailIsRefused | apps/api/src/auth/auth.service.ts:298-304 | the refusal inside `registerEmailJob` is unreachable |
| Shutdown.TimeoutLeavesGateOpen | apps/api/src/auth/auth.service.ts:334-352 | a timed-out first phase leaves the e-mail gate open |
| Shutdown.RefusedWritesNothing | apps/api/src/auth/auth.service.ts:261-277 | a workflow that was turned away did nothing else, before or after |
| Shutdown.WritesUnderReservation | apps/api/src/auth/auth.service.ts:261-277 | every write and letter of a workflow falls between its one reservation and its one return |
| Shutdown.FinishMeansQuiet | apps/api/src/auth/auth.service.ts:164-187 | a normal finish means everything settled, and whatever comes later is turned away |
| Shutdown.IdleShutdownNeedsNoBudget | apps/api/src/auth/auth.service.ts:365-370 | with nothing live the shutdown finishes even on a budget of zero |
| Shutdown.NoPhaseGivesUpEarly | apps/api/src/auth/auth.service.ts:365-382 | no phase is given up before the one deadline |
| Shutdown.NoPhaseHangs | apps/api/src/auth/auth.service.ts:365-382 | exactly when a phase goes on and when it gives up; otherwise somebody it waits for is at work and time is left |
| Shutdown.TimeRunsOut | apps/api/src/auth/auth.service.ts:365-382 | a phase with somebody to wait for can give up once its time is over |
| Shutdown.LiveWorkEnds | apps/api/src/auth/auth.service.ts:226-258 | from every reachable state all live work can end while the shutdown stands where it stands |
| Shutdown.WorkflowFromCallToEnd | apps/api/src/auth/auth.service.ts:261-320 | one workflow with one letter from its call to its end, let in or turned away: what it leaves |
| Shutdown.ShutdownSteps | apps/api/src/auth/auth.service.ts:164-187 | each step of a shutdown closes its own gate with its own snapshot and the time that is left |
| Shutdown.AuthService.ReserveWorkflow | apps/api/src/auth/auth.service.ts:226-240 | gate check and entry in the live set in one turn |
| Shutdown.AuthService.EnqueueEmail | apps/api/src/auth/auth.service.ts:241-250 | a live workflow always finds the e-mail gate open |
| Shutdown.AuthService.ReleaseWorkflow | apps/api/src/auth/auth.service.ts:251-258 | the permission is returned once |
| Shutdown.AuthService.RequestPasswordReset | apps/api/src/auth/auth.service.ts:534-543 | reservation, letter and release in one turn, or a refusal and nothing |
| Shutdown.AuthService.BeginShutdown | apps/api/src/auth/auth.service.ts:164-174 | the first gate closes with its snapshot |
| Shutdown.AuthService.AfterWorkflows | apps/api/src/auth/auth.service.ts:174-184 | the second gate closes only after a successful first phase |
| Shutdown.AuthService.AfterEmails | apps/api/src/auth/auth.service.ts:184-187 | the shutdown ends drained or fails |

## Left out

- Registered loans beyond pending requests: `loan.service.ts` is a state machine of its own.
- Notifications other than the rejection of a pending request, the dispatcher, analytics, funnel counts and mappers.
- The unique-index fallbacks of `apply` and `createEdition`: the checks under the lock make them unreachable or they concern ISBNs, which no rule here reads.
- The time between two statements of one guest transaction: each is one step at its commit, and `GuestLockRuns` shows that the rows it holds have not changed since it read them. Events and notices have no lock of their own; they are written under the locks of their loan and copy.
- Share locks that foreign keys take, except in `WorkOwnership`, where further rows of a held work stand for them.
- The unlocked canonical check of `createTranslation`: it is one step with the insert.
- Column values no rule reads (titles, notes, covers) are one opaque number; a link to an author is the author's id with a role.
- The check that author ids in a request exist (`assertAuthorsExist`): author rows are not part of the catalog model, and no operation changes or deletes one.
- Reviews, wishlist items and reading statuses, which a merge also moves, and the counts in its reply.
- Who may correct a catalog entry: the permission is a flag of the request.
- `drainBackgroundWork`, a test helper that loops until both live sets are empty.
- Unicode trimming and case mapping beyond ASCII.
