# A verified model of the IssueFlow ticket system

This project models the server side of the IssueFlow ticket system: tickets with a forward-only life
cycle and optimistic locking, the "is blocked by" relation between tickets, automatic assignment and
escalation, comments with @mentions, the audit log, and CSV import and export. It states and proves what
these parts promise together.

`dafny verify dfyconfig.toml` checks the whole project.

## How it is built

PostgreSQL becomes one object, `DatabaseModel.Database`, whose fields are the tables (maps and sets), the id
sequences and at most one open transaction. Each repository method is one atomic step with the meaning of
its SQL statement; each service method is the sequence of checks and steps the service performs. Every such
method is proved equal to a function on an immutable snapshot (`Schema.State`), and the laws are proved
about these functions.

* `Schema`, `TicketTable`, `Operations`: rows, what each statement does, what each service operation does
  and answers, with its error cases in the order the service checks them.
* `Database`, `TicketsRepository`, `Dependencies`, `TicketsService`, `Escalation`, `Comments`,
  `MentionQueries`, `CsvServices`, `Audit`: the imperative layer.
* `Sql`, `StatementBuilders`: the statements assembled at run time, with `$k` placeholders and parameters,
  their execution, and the loops and pushes that build them.
* `Graph`: paths, reachability, cycles. `System`: all operations as one transition system, its runs and its
  invariants. `Progress`, `ResolvedBlockers`, `EscalationLaws`, `OverdueFlags`, `Assignment`, `AuditTrail`,
  `AuditOutages`, `CommentIntegrity`: properties of all runs.
* `Interleaving`: the second grain, a machine whose steps are the stretches between awaits. PATCH calls and
  escalation cycles run against each other, creates, deletions, restores, dependency changes and user
  deletions in any order. `VersionHistory`: what every interleaving keeps, whatever versions clients send.
  `TerminalState`: exactly which calls in flight can break the life cycle, and what clients that follow the
  version rule can rely on. `TruthfulAudit`, `InterleavedGates`: what audit entries, the DONE gate, the cycle
  check and the overdue flag still promise. `Grains` proves that a call or a cycle that nobody interrupts is
  the atomic operation. `CommentCalls`: comment creates and edits split at their awaits. `Witnesses`: concrete
  runs for everything that does not hold in general.
* `MentionParser`, `Diffing`, `Csv`: the text scanner, the audit difference, and CSV records.
* `UpdateLaws`, `TicketLaws`, `DependencyLaws`, `CommentLaws`, `CsvLaws`, `UserLaws`, the middle part of
  `EscalationLaws`, and `RowLaws`, which covers all operations row by row: the same operations described a
  second time, from the request, the rows and nothing else. Statuses, priorities, cell texts, characters,
  conditions and audit entries are written out there, so the definitions all other results share are checked
  against an independent account. Where these laws speak of stand-alone audit entries they suppose that no
  audit insert fails; `AuditOutages` says what a failure changes.

Clocks, the workload row the database lists first among developers that tie, failing transaction statements
and failing audit inserts are parameters, so every statement is about all their values.

## Where the code and its comments differ

The model follows the code in these places. What fails in the code comes with the exact condition and, where
it takes a run to see it, a concrete run; the first item is a difference that nobody can observe.

* `comments.repository.ts:177-180` says the transaction rolls back when the callback returns null. It
  commits, having changed nothing (`CommentsRepository.Transaction`).
* A comment call reads its mentions back after COMMIT. If that statement fails the caller gets an error for a
  comment that was written: an error answer means "nothing changed" exactly when the failing statement is not
  the read-back (`CommentIntegrity.CreateAllOrNothing`, `CommentIntegrity.EditAllOrNothing`,
  `Witnesses.FailedCreateCanCommit`, `Witnesses.FailedEditCanCommit`).
* `users.repository.ts:150-156` says the service turns the database's refusal to delete a referenced user into
  409. It lets the error through (`UserLaws.DeletedUser`).
* `diff-metadata.ts:1-3` promises only the fields that changed. Dates are compared by identity, so an
  unchanged due date is recorded (`Diffing.OnlyChangesRecorded`, `Witnesses.UnchangedDateIsLogged`).
* `dependencies.service.ts:139-145` expects the stored relation to stay free of cycles. It does when adds run
  one at a time. When adds run against each other it does exactly as long as no insert comes after its blocker
  has come to reach its ticket (`InterleavedGates.AcyclicThroughout`). Two adds whose checks both precede both
  inserts can close a cycle (`DependenciesService.InterleavedAdds`, `Witnesses.AddsCanCloseCycle`), and so can
  three that are harmless in pairs (`Witnesses.ThreeAddsCloseCycle`).
* A DONE ticket can have an unresolved blocker. In serial runs this takes an added dependency or a restored
  blocker (`ResolvedBlockers.StepExact`, `ResolvedBlockers.DoneTicketCanGainBlocker`). In interleavings it can
  also take a move to DONE whose blocker came after its gate, or a guessed version that moves a DONE blocker
  back (`InterleavedGates.NextExact`, `Witnesses.LateDependencySlipsThrough`,
  `Witnesses.GuessedVersionReopensBlocker`).
* Escalation can lower a priority, because its write has no version check: exactly when the ticket was raised
  above the promotion's level since the scan (`VersionHistory.EscalationLowersExactly`,
  `Witnesses.EscalationCanLower`). For the same reason a flag can end up on a ticket that is not CRITICAL
  (`InterleavedGates.NextFlags`, `Witnesses.FlagCanMissCritical`); in serial runs it cannot.
* A flag can sit on a ticket that is not past due. In serial runs this takes a PATCH that postpones a flagged
  ticket (`OverdueFlags.StepFlags`, `Witnesses.FlagCanOutliveDueDate`); in interleavings also a cycle that
  flags a ticket postponed since its scan (`InterleavedGates.NextPastDue`, `Witnesses.FlagCanMissDueDate`).
* The terminal DONE state relies on the versions clients send. A guessed future version breaks it
  (`Witnesses.GuessedVersionChangesDone`). `TerminalState.SafeExactlyWithoutDanger` says, for every state of
  every run, exactly which calls in flight are able to; after a read it is those that sent a version beyond
  the one they read (`TerminalState.SafeExactlyAtRead`). No version a client was shown ever is.

## Model

| member | source | states |
|---|---|---|
| Graph.AddEdgeAcyclic | src/tickets/dependencies.service.ts:69-77 | adding an edge to an acyclic relation keeps it acyclic exactly when the ticket is not reachable from the new blocker |
| DependenciesService.WouldCreateCycle | src/tickets/dependencies.service.ts:147-168 | the worklist search ends on every finite graph, cyclic or not, and answers true exactly when the ticket is reachable from the blocker |
| DependenciesService.Add | src/tickets/dependencies.service.ts:44-93 | refuses self-blocks, missing and soft-deleted tickets, cross-project pairs and exactly the edges that would close a cycle; otherwise writes the edge once and logs only a new one; keeps acyclicity |
| DependencyLaws.EdgeAppears | src/tickets/dependencies.service.ts:49-79 | in a step of the system an edge appears exactly when the step adds it, both tickets exist and are not deleted, they differ, share a project, the edge was absent, and the blocker does not reach the ticket |
| DependencyLaws.AddAnswers | src/tickets/dependencies.service.ts:49-77 | 400 exactly for a self-block, two projects or a cycle, 404 exactly for a missing or soft-deleted ticket on either side |
| DependencyLaws.AddWrites | src/tickets/dependencies.service.ts:79-92 | an add that may be written and is new writes exactly the edge and its CREATE entry, any other add nothing |
| DependenciesService.Remove | src/tickets/dependencies.service.ts:95-114 | removes exactly the named edge and logs it, or answers not found and changes nothing |
| DependencyLaws.EdgeDisappears | src/tickets/dependencies.service.ts:95-105 | in a step of the system an edge goes exactly when the step removes it |
| DependencyLaws.RemoveWrites | src/tickets/dependencies.service.ts:95-113 | 404 and no change for an absent edge; otherwise exactly the edge goes and its DELETE entry is logged |
| DependenciesService.InterleavedAdds | src/tickets/dependencies.service.ts:73-79 | two adds checked before either insert leave a cycle exactly when each blocker reaches the other ticket |
| InterleavedGates.NextAcyclic | src/tickets/dependencies.service.ts:69-79 | a step of any interleaving closes a cycle exactly when it inserts an edge whose blocker reaches its ticket by then |
| InterleavedGates.AcyclicThroughout | src/tickets/dependencies.service.ts:139-145 | over any interleaving, with any number of adds on their way, the relation stays free of cycles exactly when no step is such an insert |
| Witnesses.ThreeAddsCloseCycle | src/tickets/dependencies.service.ts:73-79 | a concrete state in which three adds pass their checks, close no cycle in pairs, and close one together |
| DependenciesRepository.BlockerIdsOf | src/tickets/dependencies.repository.ts:73-79 | lists every blocker once, soft-deleted ones included |
| DependenciesRepository.CountUnresolvedBlockers | src/tickets/dependencies.repository.ts:86-97 | counting over the joined blockers counts each open blocker once; the count is 0 exactly when every blocker is DONE, deleted or missing |
| System.StepInv | src/tickets/dependencies.service.ts:16-24 | every operation keeps ids below their sequences, edges inside one project, the relation acyclic, flags on CRITICAL tickets only, and assignees existing |
| RowLaws.TicketAfterStep | src/tickets/tickets.service.ts:178-359 | any ticket after any operation of the system: overwritten by an acceptable PATCH, marked by a delete, unmarked by a restore, one step up when due in a cycle, without assignee when that user goes, and otherwise as it was |
| RowLaws.NewTicketAfterStep | src/tickets/tickets.service.ts:100-132 | a ticket is new after an operation other than an import exactly when a create names a project that is there and no missing assignee, and it has the next id |
| RowLaws.CommentAfterStep | src/comments/comments.service.ts:71-196 | any comment and any mention after any operation, with a failure at any statement: written when all statements up to COMMIT run through, gone with a delete or, for a mention, with its user, and otherwise as it was |
| RowLaws.UserAfterStep | src/users/users.service.ts:72-178 | any user after any operation: registered under a free name, changed in the supplied columns, removed when nothing refers to it, and otherwise as before |
| System.BlockersStayInProject | src/tickets/dependencies.service.ts:62-77 | in every serially reachable state the whole relation is acyclic and every direct or transitive blocker is in the project of the ticket it blocks |
| System.FlaggedOnlyWhenCritical | src/database/migrations/001_init.sql:91-92 | in every serially reachable state an overdue flag implies priority CRITICAL |
| Progress.CanFinish | src/tickets/tickets.service.ts:211-221 | an open ticket's PATCH to DONE with its current version succeeds exactly when it has no unresolved blocker |
| Progress.SomeTicketCanFinish | src/tickets/dependencies.service.ts:22-24 | no deadlock: in every serially reachable state with an open ticket, some open ticket can be moved to DONE |
| Progress.EverythingCanFinish | src/tickets/dependencies.service.ts:22-29 | from every serially reachable state one accepted update per open ticket brings every active ticket to DONE |
| ResolvedBlockers.StepExact | src/tickets/tickets.service.ts:211-221 | an uninterrupted operation adds an edge from a DONE ticket to an open blocker exactly when it links an open blocker to a DONE ticket or restores one |
| ResolvedBlockers.ResolvedThroughout | src/tickets/dependencies.service.ts:26-29 | DONE tickets have only resolved blockers throughout a serial run exactly when no operation of it does one of these two things |
| ResolvedBlockers.DoneTicketCanGainBlocker | src/tickets/dependencies.service.ts:53-60 | a concrete run after which a DONE ticket has an open blocker |
| InterleavedGates.DoneCommitExact | src/tickets/tickets.service.ts:211-239 | a move to DONE leaves an unresolved blocker behind exactly when one is unresolved at the write, whatever its gate saw |
| InterleavedGates.ReopenExact | src/tickets/tickets.repository.ts:187-207 | an UPDATE that moves a DONE ticket back leaves an unresolved blocker behind exactly when a DONE ticket waits for it |
| InterleavedGates.NextExact | src/tickets/tickets.service.ts:211-221 | a step of any interleaving, whatever versions were sent, adds an edge from a DONE ticket to an open blocker exactly when it links one, restores one, commits a move to DONE past one, or moves one back from DONE |
| InterleavedGates.ResolvedThroughout | src/tickets/dependencies.service.ts:26-29 | DONE tickets have only resolved blockers throughout any interleaving exactly when no step of it does one of these four things |
| InterleavedGates.NextFlags | src/tickets/tickets.repository.ts:370-389 | "flagged implies CRITICAL" survives a step exactly when no cycle writes on a row that left CRITICAL, or was flagged, since its scan |
| InterleavedGates.FlagsStayCritical | src/scheduler/escalation.service.ts:69-96 | flags sit on CRITICAL tickets throughout an interleaving exactly when no step of it is such a write |
| InterleavedGates.NextPastDue | src/scheduler/escalation.service.ts:92-118 | "flagged implies past due" survives a step of any interleaving exactly when the step neither postpones a flagged ticket without touching its priority nor flags one that is not past due |
| InterleavedGates.FlagsStayPastDue | src/tickets/tickets.service.ts:227-243 | flags sit on tickets past due throughout any interleaving exactly when no step of it does one of these two things |
| TerminalState.Squeeze | src/tickets/tickets.repository.ts:198-206 | a guarded UPDATE whose version is not beyond the row read hits a row with exactly the columns that were read and checked |
| TerminalState.SafeExactlyWithoutDanger | src/tickets/tickets.service.ts:196-239 | in every state of every run, all continuations by clients that follow the version rule keep status ranks and DONE rows exactly when no call in flight is dangerous, a condition on its version, its patch and the rows |
| TerminalState.SafeExactlyAtRead | src/tickets/tickets.service.ts:201-239 | for one call that has just read its row, all continuations are safe exactly when the version it sent is not beyond the one it read |
| TerminalState.HonestRunsAreSafe | src/tickets/dto/update-ticket.dto.ts:69-78 | clients that only send versions they were shown never break the life cycle |
| TerminalState.DoneIsFinal | src/tickets/tickets.service.ts:201-251 | over any interleaving of clients that send no version beyond the present one, status ranks and versions never fall and a DONE row never changes but for its deletion mark and a cleared assignee |
| TruthfulAudit.UpdateEntriesTellTheTruth | src/tickets/tickets.service.ts:253-268 | in every such interleaving each UPDATE entry records exactly how one version of its ticket became the next, assignee aside |
| TruthfulAudit.TrueCommitExactly | src/tickets/tickets.service.ts:253-268 | the entry of an UPDATE tells the step it makes exactly when the row read has the columns of the row hit |
| TruthfulAudit.TrueExactlyWithoutMisleading | src/common/utils/diff-metadata.ts:23-35 | in every state of every run, all continuations by clients that follow the version rule log only such entries exactly when no call in flight is misleading, a condition on its version and the rows |
| VersionHistory.NoLostUpdate | src/tickets/tickets.repository.ts:133-208 | over every interleaving and whatever versions clients send, the version counts the field writes, writes to a ticket start from strictly increasing versions, each write turns the columns of its version into those of the next, and each client write is applied to exactly the columns its version was shown with |
| VersionHistory.HistoryRecordsRows | src/tickets/tickets.repository.ts:187-207 | what a version stands for is the row every earlier state of the run had at that version |
| VersionHistory.FieldsAreColumns | src/tickets/tickets.repository.ts:163-206 | the columns a version stands for are all but type, project, assignee, version and deletion mark |
| Witnesses.GuessedVersionChangesDone | src/tickets/tickets.service.ts:231-251 | a concrete interleaving in which a guessed version changes a DONE ticket |
| VersionHistory.EscalationLowersExactly | src/tickets/tickets.repository.ts:380-389 | in every interleaving an escalation write lowers a priority exactly when the ticket is open, was not CRITICAL when scanned, and some write since the scan raised it for good above the level it is promoted to |
| Witnesses.EscalationCanLower | src/scheduler/escalation.service.ts:66-96 | a concrete interleaving in which a cycle sets a ticket from CRITICAL to MEDIUM |
| Witnesses.FlagCanMissCritical | src/scheduler/escalation.service.ts:97-118 | a concrete interleaving in which a cycle flags a LOW ticket |
| Witnesses.FlagCanMissDueDate | src/scheduler/escalation.service.ts:97-118 | a concrete interleaving in which a cycle flags a ticket postponed since its scan |
| Witnesses.GuessedVersionReopensBlocker | src/tickets/tickets.service.ts:231-251 | a concrete interleaving in which a guessed version moves the DONE blocker of a DONE ticket back |
| Witnesses.FailedCreateCanCommit | src/comments/comments.service.ts:85-107 | a concrete run in which a create answers an error and its comment and CREATE entry are there |
| Witnesses.FailedEditCanCommit | src/comments/comments.service.ts:138-164 | a concrete run in which an edit answers an error and its text is there, at the next version |
| Witnesses.LateDependencySlipsThrough | src/tickets/tickets.service.ts:211-239 | a concrete interleaving in which a dependency lands between the DONE gate and the UPDATE |
| Witnesses.AddsCanCloseCycle | src/tickets/dependencies.service.ts:73-79 | a concrete state in which two adds both pass their checks and together close a cycle |
| Grains.UninterruptedIsAtomic | src/tickets/tickets.service.ts:178-271 | a call that nobody interrupts ends with the tickets, the audit entries and the answer of the atomic update |
| Grains.UninterruptedCycle | src/scheduler/escalation.service.ts:55-132 | a cycle that nobody interrupts has the tickets and audit entries of the atomic escalation, with one write per promotion and flag |
| Grains.UninterruptedCreate | src/comments/comments.service.ts:71-108 | a comment create that nobody interrupts is the atomic create |
| Grains.UninterruptedEdit | src/comments/comments.service.ts:117-165 | a comment edit that nobody interrupts is the atomic edit |
| Grains.DeletionsAgree | src/tickets/tickets.repository.ts:210-222 | deleting and restoring a ticket in the interleaved machine leaves the rows of the operation |
| Grains.LinksAgree | src/tickets/dependencies.repository.ts:32-49 | so do an accepted add and a removal of a dependency |
| Grains.CreatesAgree | src/tickets/tickets.repository.ts:81-131 | and an accepted create, with the assignee it ends up with |
| Grains.RemovalsAgree | src/users/users.repository.ts:150-161 | and an accepted deletion of a user |
| Grains.CommentStatementsAgree | src/comments/comments.repository.ts:205-212 | in the machine of comment calls, deleting a comment, and removing or registering a user that may go or come, leave what the operations leave |
| EscalationLaws.EscalatePrefix | src/scheduler/escalation.service.ts:66-118 | the sequential loop equals the row-wise step on the table, counts every row once, and lowers the potential by one per promotion and flag |
| EscalationLaws.EscalateWhole | src/scheduler/escalation.service.ts:55-132 | a cycle touches only overdue, unresolved, active tickets, each by its one step, and the potential falls by promoted plus marked |
| EscalationLaws.CycledTicketClosedForm | src/scheduler/escalation.service.ts:17-26 | after k cycles an overdue ticket is at the lower of CRITICAL and k levels up, with flag and version accordingly; other tickets are untouched |
| EscalationLaws.FifthCycleIsQuiet | src/scheduler/escalation.service.ts:31-33 | after four cycles a further one writes nothing |
| EscalationService.RunOnce | src/scheduler/escalation.service.ts:55-132 | without interference the cycle is the sequential loop; with any interference every scanned row is counted once, every write goes to a scanned row and moves it one level above the priority scanned or flags a scanned CRITICAL row without flag, and promoted and markedOverdue are the numbers of priority and flag writes that went through |
| EscalationLaws.CountersExactly | src/scheduler/escalation.service.ts:61-124 | in an undisturbed cycle scanned, promoted and markedOverdue are the numbers of active unresolved tickets due before now, of those below CRITICAL, and of those at CRITICAL without the flag |
| EscalationLaws.RowsExactly | src/scheduler/escalation.service.ts:69-118 | exactly these rows change: LOW to MEDIUM, MEDIUM to HIGH, HIGH to CRITICAL, CRITICAL to flagged, each with the next version |
| EscalationLaws.EntriesExactly | src/scheduler/escalation.service.ts:82-118 | one entry by the system for each such change, in id order, with the old and new priority of a promotion |
| OverdueFlags.StepFlags | src/tickets/tickets.service.ts:227-243 | "flagged implies past due" survives an uninterrupted operation exactly when it does not postpone a flagged ticket without touching its priority |
| Witnesses.FlagCanOutliveDueDate | src/tickets/tickets.service.ts:227-243 | a concrete run after which a flagged ticket is not past due |
| Assignment.AutoCreateStep | src/tickets/tickets.service.ts:109-121 | an unassigned create goes to a least-loaded developer, earliest registered among those, and adds one to exactly that load |
| Assignment.GreedyBound | src/tickets/tickets.repository.ts:289-298 | after n creates no load exceeds the larger of the initial maximum and the average rounded up |
| Assignment.BalanceKept | src/tickets/tickets.repository.ts:289-298 | loads that differ by at most one keep doing so |
| Assignment.RoundRobin | src/tickets/tickets.repository.ts:296-298 | from equal loads and distinct registration times the n-th ticket goes to developer n mod k in registration order |
| TicketsRepository.WorkloadByProject | src/tickets/tickets.repository.ts:303-330 | every developer once, each with the number of tickets of this project assigned to them that are neither DONE nor deleted, fewest first and then earliest registered |
| TicketTable.LoadCounts | src/tickets/tickets.repository.ts:311-319 | the count is the size of the set of tickets with this assignee and project that are neither DONE nor deleted |
| TicketsRepository.FindOverdueUnresolved | src/tickets/tickets.repository.ts:340-351 | exactly the active tickets with a due date before now and a status other than DONE, each once, in id order |
| TicketTable.OverdueRowsSpec | src/tickets/tickets.repository.ts:332-351 | the scan lists every overdue row once, in strictly increasing id order, and no other |
| TicketsRepository.ApplyEscalation | src/tickets/tickets.repository.ts:367-390 | the one-step change with a version bump, skipped for resolved, deleted or missing tickets |
| TicketsRepository.Create | src/tickets/tickets.repository.ts:81-131 | inserts the row with column defaults under a fresh id, or fails on a missing assignee and uses the id up |
| TicketsRepository.UpdateWithVersionCheck | src/tickets/tickets.repository.ts:146-208 | running the assembled statement is the compare-and-bump record update |
| TicketsService.Create | src/tickets/tickets.service.ts:100-168 | the whole create: checks, automatic choice of a first workload row, row, and one or two log entries |
| TicketLaws.CreateAnswers | src/tickets/tickets.service.ts:104-107 | 404 exactly for a missing project or assignee, and then nothing changes |
| TicketLaws.CreatedRow | src/tickets/tickets.repository.ts:93-129 | the row: the request's columns, TODO, MEDIUM, no flag and version 1 by default, and the named or else the chosen assignee |
| TicketLaws.CreateEntries | src/tickets/tickets.service.ts:134-165 | one CREATE entry, and an AUTO_ASSIGN entry by the system exactly when the system chose the assignee |
| TicketLaws.PickIsFirst | src/tickets/tickets.service.ts:109-121 | the system chooses nobody exactly when there is no developer; otherwise a developer with the fewest open tickets in the project, and among those one registered first |
| TicketLaws.OtherProjectsDoNotCount | src/tickets/tickets.repository.ts:313-319 | creating a ticket in another project changes nobody's set of open tickets in this one |
| TicketsService.Update | src/tickets/tickets.service.ts:178-271 | the whole update with every refusal in order, the flag reset and the logged difference |
| UpdateLaws.UpdateBadRequest | src/tickets/tickets.service.ts:183-209 | 400 exactly for an empty body, no version, or, on an active ticket that is not DONE, one of the moves IN_PROGRESS to TODO, IN_REVIEW to TODO and IN_REVIEW to IN_PROGRESS |
| UpdateLaws.UpdateNotFound | src/tickets/tickets.service.ts:201-225 | 404 exactly for a missing or deleted ticket, or an assignee who is not a user when nothing before that refuses |
| UpdateLaws.UpdateConflict | src/tickets/tickets.service.ts:203-251 | 409 exactly for a DONE ticket, a move to DONE past a blocker that is neither DONE nor deleted, or another version |
| UpdateLaws.UpdateAccepted | src/tickets/tickets.service.ts:33-38 | accepted exactly when none of these holds: of the moves between two statuses all but the three above and those from DONE |
| UpdateLaws.UpdatedRow | src/tickets/tickets.service.ts:227-243 | the row left and answered: supplied columns overwritten, the flag cleared exactly with a supplied priority, the next version; no other row changes |
| UpdateLaws.GuardedWrite | src/tickets/tickets.repository.ts:187-207 | the guarded UPDATE hits exactly a ticket that is there, is not deleted and has the expected version, and overwrites that row only |
| UpdateLaws.UpdateEntry | src/tickets/tickets.service.ts:253-268 | one UPDATE entry by the caller with old and new value of each of the seven audited columns that differs, and of any due date |
| TicketsService.SoftDelete | src/tickets/tickets.service.ts:278-296 | marks exactly the active ticket deleted and logs it, or answers not found |
| TicketLaws.DeleteMarks | src/tickets/tickets.service.ts:278-296 | 404 exactly for a missing or deleted ticket; otherwise exactly that row is marked, all other columns and rows stay, and the DELETE entry is logged |
| TicketsService.Restore | src/tickets/tickets.service.ts:336-359 | clears exactly the mark of a deleted ticket and logs it; not found and conflict otherwise |
| TicketLaws.RestoreUnmarks | src/tickets/tickets.service.ts:336-359 | 404 for a missing ticket, 409 for one that is not deleted; otherwise exactly the mark goes and the RESTORE entry is logged |
| TicketLaws.RestoreUndoesDelete | src/tickets/tickets.service.ts:273-296 | delete and restore give the table back |
| StatementBuilders.BuildUpdate | src/tickets/tickets.repository.ts:159-206 | the SET/WHERE statement binds every placeholder and, on every table, means the plain record update guarded by id, version and deletion mark |
| StatementBuilders.StorePatch | src/tickets/tickets.repository.ts:163-186 | storing the supplied columns one after the other is the record update |
| StatementBuilders.BuildInsert | src/tickets/tickets.repository.ts:93-129 | the INSERT builds exactly the row with defaults for omitted columns |
| StatementBuilders.BuildFilter | src/audit/audit.repository.ts:99-119 | the WHERE conditions, bound to their parameters, hold of an entry exactly when all supplied filters do |
| StatementBuilders.BuildMentionRows | src/comments/comments.repository.ts:128-139 | for any list of users the VALUES rows insert exactly the pairs of the comment with each user |
| AuditRepository.Find | src/audit/audit.repository.ts:93-131 | lists the entries passing the filters, newest first |
| AuditRepository.MatchingExactly | src/audit/audit.repository.ts:89-92 | an entry is listed exactly when it is in the log and agrees with every supplied one of entity type, entity id, action and actor |
| AuditRepository.MatchingInOrder | src/audit/audit.repository.ts:121-131 | the list runs through the positions of the entries that agree with the filters, each once, from the newest down |
| Diffing.DiffMetadata | src/common/utils/diff-metadata.ts:23-35 | the loop records exactly the fields that compare as different, with old and new value |
| Diffing.OnlyChangesRecorded | src/common/utils/diff-metadata.ts:1-3 | no changed field is missed; only changed fields are recorded exactly when no unchanged non-null due date is listed |
| Witnesses.UnchangedDateIsLogged | src/common/utils/diff-metadata.ts:23-35 | a concrete run that logs an unchanged due date |
| AuditTrail.ReplayYieldsCurrent | src/tickets/tickets.service.ts:253-268 | without outages, replaying the log of a ticket with a CREATE entry meets no contradicting old value and yields its current title, status, priority and flag |
| AuditTrail.CreatedTicketIsReplayed | src/tickets/tickets.service.ts:134-148 | the same for the ticket created by any create operation of a run |
| AuditOutages.OutagesAreHarmless | src/audit/audit.service.ts:15-21 | whatever stand-alone audit inserts fail, a run ends with the same data, and its log is the complete log with exactly the failed inserts left out |
| AuditOutages.AnswersAreTheSame | src/audit/audit.service.ts:45-53 | and every operation of the run answers the same |
| DatabaseModel.Database.Log | src/audit/audit.service.ts:45-53 | the entry is appended, or the failure is swallowed; nothing else changes |
| UserLaws.RegisteredUser | src/users/users.service.ts:72-113 | 409 exactly for a name some user has, in whatever case; otherwise the user gets the next id and the entry names the creator or, at a registration, the user |
| UserLaws.ChangedUser | src/users/users.service.ts:121-151 | 400 for an empty request, 404 for a missing user; otherwise the supplied columns, and an entry with the ones that changed |
| UserLaws.DeletedUser | src/users/users.service.ts:158-178 | an author or otherwise referenced user stays; otherwise exactly the user and all mentions of them go, and exactly their tickets lose the assignee |
| MentionParser.Exec | src/comments/mention-parser.ts:22-25 | finds the leftmost match at or after the index and its greedy end, or that there is none |
| MentionParser.Parse | src/comments/mention-parser.ts:20-29 | the scanning loop computes the specified list of names |
| MentionParser.ParsedExactly | src/comments/mention-parser.ts:4-18 | the names are exactly the lower-cased maximal word runs right after an '@', each once |
| MentionParser.WordCharacters | src/comments/mention-parser.ts:4-9 | names are made of the 52 letters, the ten digits and the underscore |
| MentionParser.LowerLetters | src/comments/mention-parser.ts:12-13 | lower-casing identifies exactly the two cases of each letter and yields the small one |
| MentionParser.ParsedWhenMentioned | src/comments/mention-parser.ts:4-18 | a name is parsed, in lower case, exactly when somewhere in the text an @ is followed by that name, up to the case of letters, and then by the end of the text or another character |
| MentionParser.ParsedInOrder | src/comments/mention-parser.ts:23-28 | names appear in the order of their first occurrences |
| MentionParser.CaseInsensitive | src/comments/mention-parser.ts:12-13 | changing the case of ASCII letters does not change the result |
| MentionParser.MentionRoundTrip | src/comments/mention-parser.ts:4-9 | parsing "@u1 @u2 ... @un" gives back the distinct lower-case names |
| CommentsService.ResolveMentions | src/comments/comments.service.ts:220-227 | each registered user named in the text, once |
| CommentsService.Create | src/comments/comments.service.ts:71-108 | the whole create, for a failure at any of its statements from the first read to the read-back |
| CommentLaws.CreatedComment | src/comments/comments.service.ts:71-108 | 404 without an active ticket or the author; otherwise the comment at version 1, a mention row for exactly the registered users whose names, in whatever case, follow an @ in the text, and the CREATE entry |
| CommentsService.Update | src/comments/comments.service.ts:117-165 | the whole edit with every refusal, for a failure at any of its statements from the first read to the read-back |
| CommentLaws.EditedComment | src/comments/comments.service.ts:117-165 | 400 without a version, 404 for a missing comment or another ticket, 409 for another version; otherwise the text, the next version, mention rows for exactly the users addressed now, and an UPDATE entry that says whether the text changed |
| CommentsService.Delete | src/comments/comments.service.ts:172-196 | removes the comment and its mention rows and logs it, or answers not found |
| CommentLaws.DeletedComment | src/comments/comments.service.ts:172-196 | exactly the comment and its mention rows go, and the DELETE entry is logged; 404 for a missing comment or another ticket |
| CommentsRepository.Transaction | src/database/database.service.ts:112-129 | all of the callback's effect when no statement from BEGIN to COMMIT raises, by itself or by violating a key, and otherwise none of it but a used-up id |
| CommentsRepository.RunCreate | src/comments/comments.repository.ts:119-145 | runs through exactly when none of its statements raises, a vanished ticket, author or mentioned user included, and then leaves comment, mention rows and audit entry |
| CommentsRepository.RunEdit | src/comments/comments.repository.ts:167-202 | the same for an edit; a stale version touches nothing |
| CommentIntegrity.CreateAllOrNothing | src/comments/comments.repository.ts:95-109 | a create commits, with exactly the mentioned registered users as rows, exactly when ticket and author exist and no statement up to COMMIT fails; else comments, mentions and log are unchanged; an error means unchanged exactly when it is not the read-back that failed |
| CommentIntegrity.EditAllOrNothing | src/comments/comments.repository.ts:148-159 | an edit commits exactly when the version is current and no statement up to COMMIT fails, with exactly the newly mentioned users as rows; else the database is unchanged; an error means unchanged exactly when it is not the read-back that failed |
| CommentLaws.StatementCounts | src/comments/comments.repository.ts:111-205 | the number of statements up to and with COMMIT of a create and of an edit, current or stale |
| CommentLaws.FailedCreate | src/database/database.service.ts:112-129 | a create whose n-th statement raises answers a database error and leaves at most a used-up id, exactly when the comment's own insert went through |
| CommentIntegrity.CommentsStayConsistent | src/comments/comments.service.ts:33-42 | in every serially reachable state, with a failure at any statement of any comment call, each mention row is justified by the comment's present text, and each live comment has one CREATE entry and version one plus its UPDATE entries |
| CommentCalls.InterleavedCommentsConsistent | src/comments/comments.service.ts:26-42 | the same in every interleaving of comment calls split at their awaits, comment deletions, registrations and user deletions, whatever versions and faults |
| CommentCalls.CommittedRowsExactly | src/comments/comments.service.ts:79-92 | right after a commit of any interleaving the comment's rows are the registered users its text names exactly when none of them registered since the lookup |
| CommentCalls.FlagExactly | src/comments/comments.service.ts:151-155 | an UPDATE entry says truly whether the text changed exactly when the text read and the text hit both are, or both are not, the new one |
| CommentCalls.EditsSayTruly | src/comments/comments.service.ts:43-44 | when no client sends a version beyond the present one, all UPDATE entries say so truly |
| MentionQueries.BulkQuery | src/comments/comments.repository.ts:77-86 | exactly the mention rows of the listed comments joined to their users, by comment and user id |
| MentionQueries.FindMentionedUsers | src/comments/comments.repository.ts:53-62 | id, username and full name of exactly the users a comment's mention rows join to, by increasing id |
| MentionQueries.GroupIsMentionList | src/comments/comments.repository.ts:64-69 | any answer of the bulk query, grouped by comment, is what the per-comment query answers |
| MentionQueries.FindMentionedUsersForComments | src/comments/comments.repository.ts:70-93 | the grouping loop gives every listed comment what its own query answers, and the others nothing |
| MentionQueries.AttachMentions | src/comments/comments.service.ts:229-234 | every response carries exactly what its comment's own query answers, in list order |
| MentionQueries.FindCommentsMentioning | src/comments/comments.repository.ts:230-257 | a page is the slice of the newest-first list: row k has exactly (page - 1) * pageSize + k mentioning comments created later, or at the same time with a larger id; the separately counted total is the number of mentioning comments |
| MentionQueries.PagesCoverAll | src/comments/comments.repository.ts:214-229 | enough pages of any size put together are the whole list |
| CsvServices.ImportIntoProject | src/tickets/csv/csv-import.service.ts:67-134 | the per-row loop with its counters, errors and the one audit entry |
| CsvServices.ImportIsExact | src/tickets/csv/csv-import.service.ts:36-40 | created + failed = n; the tickets created are exactly those of the acceptable rows, in order, with what their cells say; exactly the other rows are reported, each with its first problem, in increasing row number; acceptable is said of the trimmed, upper-cased cells, with the names written out |
| CsvServices.ImportAnswers | src/tickets/csv/csv-import.service.ts:72-133 | 404 for a missing project, 400 for a text that does not parse; otherwise the tally of the rows and one entry with it |
| CsvLaws.AcceptedExactly | src/tickets/csv/csv-import.service.ts:149-209 | a row is accepted exactly when its title has 1 to 255 units, its type is one of the three names, status and priority are blank or one of the four names each, and its assignee is blank or a positive integer that is a user's id |
| CsvLaws.AcceptedBecomes | src/tickets/csv/csv-import.service.ts:211-218 | the ticket an accepted row becomes, value by value; a blank status is TODO, a blank priority MEDIUM |
| CsvLaws.RefusedFor | src/tickets/csv/csv-import.service.ts:149-209 | the problem reported is the first one, looking at title, type, status, priority and assignee in this order |
| CsvLaws.TrimCuts | src/tickets/csv/csv-import.service.ts:149-157 | trimming takes exactly the surrounding whitespace off |
| CsvLaws.UnitsAre | src/tickets/csv/csv-import.service.ts:153-155 | the length of a title is one per character and one more for each beyond the basic plane |
| CsvLaws.UpperLetters | src/tickets/csv/csv-import.service.ts:159-186 | upper-casing ASCII text turns each of the 26 letters into its capital and leaves every other character |
| CsvLaws.NumeralsAreDecimal | src/tickets/csv/csv-import.service.ts:196-205 | numerals are read and written in decimal, at three values; `Csv.DecimalRoundTrip` does the rest |
| CsvLaws.RecordExactly | src/tickets/csv/csv-export.service.ts:48-58 | the seven columns of a record, value by value |
| CsvServices.ExportProject | src/tickets/csv/csv-export.service.ts:44-58 | one record per listed ticket |
| CsvServices.ProjectRowsSpec | src/tickets/csv/csv-export.service.ts:44-46 | the export lists every active ticket of the project once, in increasing id order, and no other |
| Csv.RecordRoundTrip | src/tickets/csv/csv-import.service.ts:141-219 | validating an exported record gives back the ticket's own fields |
| CsvServices.ExportImportRoundTrip | src/tickets/csv/csv-export.service.ts:48-58 | importing the exported records of any portable list of tickets fails nowhere and creates equal tickets in order |

## Left out

- TerminalState.DoneIsFinal: versions are unbounded integers; the 32-bit version column would refuse a write after 2^31 - 1 writes to one ticket.
- System.BlockersStayInProject: each add is one step; `InterleavedGates.AcyclicThroughout` states what adds that run against each other do.
- VersionHistory.NoLostUpdate: the audit entries of creates, deletions and restores are not part of the interleaved machine, and its `Link` skips the checks of an add.
- CommentsRepository.Transaction: a COMMIT that raises counts as not committed; a commit whose acknowledgement is lost is not modelled.
- AuditRepository.Find: insertion order stands for the order by timestamp and id.
- Csv.RecordRoundTrip: number conversion and upper-casing of text outside ASCII digits and letters are parameters; ids above 2^53 and NUL characters, which PostgreSQL refuses, are not considered.
- AuditTrail.ReplayYieldsCurrent: description, assignee and due date are not replayed; the CREATE entry has no description or due date, and deleting a user clears assignees without an entry.
- TicketsService.Update: a PATCH field that is an explicit JSON null. The declared types do not allow it, but validation lets it through: it counts as supplied, clears a description, assignee or due date (a flag then sits on a ticket without due date, which `OverdueFlags.StepFlags` and `InterleavedGates.NextPastDue` do not cover), and fails on the other columns.
- OverdueFlags.StepFlags: a due date cleared by a null, as above.
- InterleavedGates.NextPastDue: a due date cleared by a null, as above.
- System.StepInv: of projects only whether they are active, and that each accepted change is logged; names, owners and refusals are left out.
- CommentCalls.InterleavedCommentsConsistent: tickets, whose rows never disappear, are not part of that machine.
- User, project and ticket reads that only map rows to responses, and imperative versions of the user operations; `Operations` has their effect on the tables. E-mail addresses and passwords are left out.
- The exception filters, which turn a database error a service lets through (`Internal` here) into 400, 409 or 500.
- CSV text itself (quoting, headers, byte order marks): the parsing and printing libraries are not part of this model.
- Controllers, guards, request validation, tokens, password hashing, attachments, cron timing, migrations, health checks, logging and error message texts.
- The timestamps created_at and updated_at except for users and comments, where an order depends on them.
