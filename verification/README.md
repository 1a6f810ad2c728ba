# Redmine-to-Matrix notification bot: verified model

The repository is a bot that polls Redmine and notifies users in Matrix rooms.
Several instances run against one database: each takes a lease per user, loads
that user's notification state, walks through the fetched issues, sends
messages, and saves the rows that changed. Undelivered messages go to a
dead-letter queue. An admin panel logs people in, limits the rate of requests,
rewrites the `.env` file, keeps a catalog of notification types and matches
Redmine names with Matrix accounts.

This project models that behaviour in Dafny and proves what it keeps. The
objects that the program updates in place are classes (`UserCycle`,
`StateTables`, `Instance`, `Queue`, `SimpleRateLimiter`, `EnvFile`, `Panel`) and
its loops are methods with loops; every such method is proved against a
specification function, and the theorems are lemmas about those functions,
over every history.

How the engine is layered:

- `processor.dfy`: one visit to one issue (`VisitTurn`), with an exception
  possible at every message and at every place that reads foreign data; the
  class `UserCycle` does the same step by step on the four dictionaries.
- `issue_state.dfy`: table rows, dictionaries, the passage between them.
- `visit_messages.dfy`: what the messages of one visit depend on.
- `by_status.dfy`: what each status brings, by the names of the statuses, and which
  journal entries have a text, by the names of the fields.
- `issue_history.dfy`: the life of one issue of one user (`Cell`): load, visit,
  commit, roll back, and at any moment removal of the row. A life can be cut
  anywhere, and `status_chain.dfy`, `timers.dfy`, `journal_cover.dfy` and
  `room_bounds.dfy` prove theorems over all stretches of such lives.
  `core_effects.dfy` and `polling.dfy` compare a bot that skips unchanged issues
  with one that does not; `polling_witness.dfy` shows two histories in which they
  part.
- `user_history.dfy`: all issues of one user (`Desk`) and the projection onto
  each of them.
- `scheduler.dfy`: any number of instances, leases, commits, rollbacks and
  cleanups interleaved (`System`), and the refinement to a single bot.
  `lease_progress.dfy` says when a lease is to be had.
  `engine.dfy` carries the theorems about single issues over to it, `bot.dfy`
  ties one instance's work for one user to it.

The panel's logins, requests, logouts and password resets are `sessions.dfy`. A
login and a reset are several steps with others in between: a login reads the
user's version and commits its session later; a reset checks its token, reads
the version, writes and deletes, and commits. `password_resets.dfy` proves what
overlapping resets can and cannot do, `reset_rules.dfy` which resets go through and
which sessions they delete.

The other modules stand alone: `matrix_send.dfy` with `dlq.dfy` and `dlq_pauses.dfy`
(when exactly a row is retried); `rate_limiter.dfy`; `env_file.dfy` and
`env_settings.dfy` (what lines say and how settings come back); `catalog.dfy` and
`catalog_words.dfy` (what keys are made of); `name_matcher.dfy` with
`name_spellings.dfy`, `name_displays.dfy` and `name_rule.dfy` (accounts spelled
otherwise, display names, the rule of two words). `routing.dfy` and `text.dfy` serve
the others.

Conventions. Instants of the engine are integers in microseconds, those of the
queue and the panel in seconds, and clocks do not run back. A message is logged
when its sending is attempted; whether Matrix or the user's do-not-disturb
settings let it through is not part of the log. What a fetch returns, when
exceptions strike, what the Matrix client answers, and the values of clocks are
arbitrary inputs.

Where the code does not do what one would expect:

- An issue whose stored status is empty never gets a new stored status
  (`StatusChain.StatusFollows` gives the exact condition).
- Times are read back from the database in UTC, but the day is taken in the
  bot's own zone, so in a zone ahead of UTC two overdue notices can fall on one
  local day; `Timers.RepeatedOnItsDay` says exactly when,
  and `Timers.TwiceOnOneDay` is such a day.
- The cleanup takes no lease, so it can remove rows under a loaded cycle.
  `Scheduler.CleanupAgainstSave` says exactly when that changes what the cycle's
  save leaves, `UserHistory.SaveMirrorsMemory` when memory and row then differ
  (`UserHistory.ReloadLosesSwept` is such a cycle), and
  `Polling.IncrementalRefinesFull` when it, or an exception, parts a skipping bot
  from one that skips nothing (`PollingWitness.SweepPartsBots`,
  `PollingWitness.ExceptionPartsBots`).
- A password reset locks neither its token nor its user when it reads them. Two
  overlapping requests with one token both take effect
  (`PasswordResets.TokenTakesEffectTwice`; `PasswordResets.ResetTokenWorksOnce` says
  exactly when). Two overlapping resets of one user write the same version, so a
  login between their commits outlives the second
  (`PasswordResets.LoginOutlivesReset`; `PasswordResets.LoginsEndExactly` says exactly
  when).
- The time of the last message to a group's room is not stored, so a new issue is
  repeated there after every load of the state, that is in every cycle
  (`ByStatus.RepeatedAfterEveryLoad`).
- The name matcher's rule that two words of the name must match counts parts of the
  account and words of the display name instead, so one word can pass it alone:
  `NameRule.OneWordMatchesTwice` and `NameRule.YoCountsTwice` are two such accounts,
  `NameRule.TwoWordRuleFailsExactly` says exactly which are.
- The name matcher skips one-letter words by the letters of the name, not of
  its transliteration: `NameMatcher.OneLetterWordsAreMissed` is a name whose
  canonical account is not found, `NameMatcher.CanonicalIsAlwaysMatched` and
  `NameMatcher.CanonicalScoresExactly` give the exact conditions.
- The `.env` rewriter does not quote: `EnvFile.RewriteThenParse` gives the
  updates that are read back, and only those.
- A panel request that fails after its commit is turned away but has extended
  its session, so a request can be accepted later than the idle timeout after the
  last accepted one: `Sessions.LateFaultExtends` is such a run,
  `Sessions.IdleExceededExactly` and `Sessions.TermExceededExactly` say exactly when.

## Model

| member | source | states |
|---|---|---|
| Scheduler.SerialRefinement | src/bot/scheduler.py:55-95 | from any reachable state in which nobody is at work for the user, for any interleaving of any number of instances and of cleanups at any moment in which the cycles of this user end within their lease terms, whatever those of other users do: the user's log and rows equal those of one bot running its cycles one after the other, swept where the run sweeps |
| Scheduler.ReadyAfter | src/bot/scheduler.py:55-95 | every reachable state in which nobody is at work for the user is such a starting state |
| Scheduler.CyclesFollowGrants | src/bot/scheduler.py:58-72 | the order of that single bot's cycles is the order in which the leases were granted |
| Scheduler.UsersCommute | src/bot/scheduler.py:94-95 | two steps for different users, enabled together, can be taken in either order and lead to the same whole system |
| Scheduler.CyclesCommute | src/bot/scheduler.py:94-95 | two runs that every user sees alike, with the same own events between the same clock ticks, lead to the same whole system, however the cycles of different users are interleaved |
| Scheduler.ViewDecides | src/bot/scheduler.py:94-95 | a user's lease, tasks, rows and messages after a run are those after the run of its own events alone, which is a run too |
| Scheduler.LeasesAlwaysSound | src/database/state_repo.py:67-85 | in every reachable state a task in force is what the lease table says, and a granted term has run out or still belongs to its owner with a term at least as long |
| Scheduler.GrantedTermsDisjoint | src/database/state_repo.py:67-85 | in every reachable state the terms granted for one user to different instances are pairwise disjoint, however long a task waited for the semaphore |
| Scheduler.MutualExclusion | src/database/state_repo.py:56-85 | while the holders of a user's lease are within their terms, the user is held by at most one instance |
| Scheduler.TermNeverShortens | src/bot/scheduler.py:58-60 | if no task waits for the semaphore longer than its term, the recorded end of a user's lease never moves back |
| LeaseProgress.AcquireExactly | src/database/state_repo.py:67-85 | whoever asks for a user is refused if and only if another owner's term has not run out; a refused instance stops there and nothing else changes, otherwise the lease is the asker's with the term fixed at its launch, and it holds it |
| LeaseProgress.TermFixedAtLaunch | src/bot/scheduler.py:58-60 | over every run a task's term ends the instance's own time after its launch, however long it waited since |
| LeaseProgress.LeaseRunsOut | src/database/state_repo.py:67-85 | in no reachable state does a lease last longer than its owner's term from now |
| LeaseProgress.AbandonedLeaseIsTaken | src/database/state_repo.py:67-85 | from any reachable state: once more than the owner's term has passed in which nobody asked for the user, the first instance that asks is granted the lease |
| LeaseProgress.WaitingIsEnough | src/bot/scheduler.py:58-72 | from any reachable state an instance without a task for the user gets it by waiting that long and launching one |
| Scheduler.CleanupAgainstSave | src/bot/scheduler.py:221-257 | a cleanup under a loaded cycle changes what the cycle's save leaves of an issue if and only if it removes a row that the save does not write, and leaves what a cleanup after the save would leave if and only if the issue is open or not written |
| Bot.Instance.ProcessUser | src/bot/scheduler.py:55-92 | lease, cycle, commit or rollback, with an exception in the lease step, before the load or at the save: without the lease nothing changes but the error count; every exception is counted and keeps the sent messages and a committed lease; only success stamps the check time |
| Bot.Instance.RunCycle | src/bot/processor.py:105-322 | the log and the rows after a cycle are those of loading, examining every issue in turn and writing the dirty rows |
| Bot.Instance.CleanupStateFiles | src/bot/scheduler.py:235-255 | rows after the cleanup as a fold over users; a failed fetch or a raising deletion leaves that user's rows alone, a raising commit leaves all rows; leases are untouched |
| Bot.CleanupKeepsOpen | src/bot/scheduler.py:235-255 | a row survives exactly when no sweep of its user that goes through misses its issue |
| Bot.CycleIsSerial | src/bot/processor.py:105-322 | a cycle over a list of issues is an open and one examination per issue of the single bot's history |
| Bot.ProcessUserIsSerial | src/bot/scheduler.py:55-95 | what the instance's method commits and logs is what the single bot's cycle saves and logs |
| Bot.CallIsRun | src/bot/scheduler.py:55-92 | every call of that method, whatever goes wrong in it, is a run of the system of instances with the same lease, rows and messages, after which nobody is at work who was not before |
| Engine.IssueLivesAlone | src/bot/scheduler.py:94-95 | the messages and the row of an issue in the interleaved system, cleanups included, are those of the issue's own history |
| Engine.StretchLivesAlone | src/bot/scheduler.py:94-95 | the same for any stretch of a run that begins where nobody is at work for the user: what is sent and stored in it is the issue's own history from where it stood |
| Engine.EngineReminders | src/bot/processor.py:219-245 | in any stretch of a run without failed cycles of the user, with cleanups at any moment, reminders of all instances together keep their distance |
| Engine.EngineFirstSight | src/bot/processor.py:165-263 | in any stretch of a run in which no cleanup removes the issue, such as that between two cleanups that do, all instances together treat it as unknown at most once more often than its processing was spoiled; so they send at most that many first messages about answers and reopenings and at most three times as many announcements to any one room |
| Engine.EngineStatusChain | src/bot/logic.py:308-319 | in any such stretch without failed cycles, the status messages of all instances form one path, from the status stored at its start or the one under which the issue became known |
| Engine.EngineJournals | src/bot/logic.py:322-343 | in any such stretch, the journal messages of all instances cover the journal exactly, from the id stored at its start or from the first id taken in, with nothing reported before, and with the entries decided one by one as in JournalReportedExactly |
| Engine.EngineOverdue | src/bot/processor.py:266-272 | in any such stretch the once-per-day rule for overdue notices holds across instances |
| IssueHistory.AlwaysCoherent | src/bot/processor.py:108-112 | in every history, with removals under cycles in progress: a cycle that has marked nothing for writing has the row's entry in memory, or, if the row was removed under it, an entry it could have loaded and no row |
| IssueHistory.AnyPoint | src/bot/scheduler.py:94-95 | a history can be cut anywhere, in the middle of a cycle too: what follows is a history of its own whose messages are those sent since |
| IssueHistory.FirstSightAtMostOnce | src/bot/processor.py:165-263 | in any stretch of a history without a removal of the row, wherever it begins, visits that treat the issue as unknown number at most one plus the spoiled ones (rolled back or raised) |
| IssueHistory.ToldAtMostFired | src/bot/processor.py:219-256 | messages about a first answer or a reopening never outnumber the visits that treat the issue as unknown |
| IssueHistory.VisitTells | src/bot/processor.py:149-303 | one visit sends at most one such message, and only for an unknown issue |
| StatusChain.StatusChainTelescopes | src/bot/processor.py:151-162 | in any stretch without rollbacks and removals, but with any exceptions, the status messages form a path from the status stored at its start, or the first-seen one, to the stored one, no message standing still |
| StatusChain.VisitChain | src/bot/processor.py:149-263 | one visit sends no status message and keeps the stored status, or sends the one message that records the change it stores |
| StatusChain.StatusFollows | src/bot/logic.py:308-319 | after a visit that does not raise, stored and observed status agree if and only if not an empty status was stored and a nonempty one observed |
| Timers.RemindersAreSpaced | src/bot/processor.py:230-245 | in any stretch without rollbacks, with removals at any moment, under a cycle in progress too, and status round trips in any order, any two reminders are at least the interval apart |
| Timers.SpacedCount | src/bot/processor.py:242-245 | so at most (b - a) / interval + 1 of them fall in [a, b] |
| Timers.ReminderExactlyWhenDue | src/bot/processor.py:219-245 | an undisturbed visit sends a reminder exactly when the issue is known, its status is "information provided", reminders are wanted and the time since the last reminder or first notice has come |
| Timers.OverdueOncePerDay | src/bot/processor.py:266-272 | in any stretch without rollbacks and removals, at most one overdue notice per local day, except that one within the first k of a day may be followed by another when local time is k ahead of UTC |
| Timers.OverdueExactlyWhenDue | src/bot/processor.py:266-272 | an undisturbed visit sends an overdue notice exactly when the due day has passed, it is wanted, and none was recorded on this day |
| Timers.RepeatedOnItsDay | src/bot/processor.py:266-272 | a reloaded notice of this local day is repeated on it if and only if it was sent within the day's first k, k being how far local time is ahead of UTC |
| Timers.RereadDay | src/database/state_repo.py:48-49 | an instant read in UTC falls on an earlier day than its own local day exactly within that day's first k |
| Timers.TwiceOnOneDay | src/bot/processor.py:266-272 | three hours ahead of UTC, two committed cycles at half past midnight and at noon send two notices on one day |
| JournalCover.JournalExactlyCovered | src/bot/processor.py:275-303 | in any stretch without rollbacks and removals: nothing is reported until a baseline is stored; from then on the ids reported are increasing, all above the baseline and up to the last id taken in, each from the journal, none with a text left out; the baseline is the id stored at the start or the first one stored since |
| JournalCover.JournalReportedExactly | src/bot/processor.py:275-303 | in such a stretch, each entry of the last observed journal after the baseline and up to the last id taken in is reported if and only if it has a text, where an entry that records nothing but a change of status has none exactly if the visit that took it in detected one |
| JournalCover.FirstJournalIsSilent | src/bot/processor.py:278-282 | the first journal seen sets the baseline to its largest id and sends nothing |
| JournalCover.NothingLeftBehind | src/bot/logic.py:322-343 | after a visit that does not raise, no entry of the journal is newer than the last id taken in, whether or not the user is subscribed |
| JournalCover.VisitJournal | src/bot/processor.py:283-303 | one visit leaves the journal alone or takes in all newer entries and reports them in one message |
| RoomBounds.VisitAnnounces | src/bot/processor.py:165-194 | one visit announces an issue to one room at most three times, and only an unknown issue |
| RoomBounds.AnnouncedAtMostFired | src/bot/processor.py:165-200 | over every history a room sees at most three announcements for each time the issue is treated as unknown |
| ByStatus.UnknownByStatus | src/bot/processor.py:164-263 | an undisturbed visit to an unknown issue announces it in the statuses "new" and "handed over", tells the user alone in "information provided" and "reopened", each by its own message, is silent in any other, and remembers the status and, for the first two, the time of the group's message |
| ByStatus.KnownByStatus | src/bot/processor.py:201-216 | an undisturbed visit to a known issue repeats it to the group's room exactly in those two statuses, when there is such a room, it is subscribed, and the time has come or is not known; it announces and tells nothing else again |
| ByStatus.RepeatedAfterEveryLoad | src/bot/processor.py:201-216 | whatever was sent before, a cycle's first undisturbed visit to a stored issue in one of those statuses repeats it to a subscribed group's room |
| ByStatus.OneEntryReported | src/bot/logic.py:361-390 | a single new journal entry is reported exactly if it has a comment or its one field has a name, the status only when no change of status is told of |
| Polling.IncrementalRefinesFull | src/bot/processor.py:57-74 | over all cycles, exceptions, rollbacks and removals: the skipping bot's run is legal whenever the full one is; and if it skips only issues unchanged since their last completed processing, it sends the same status, first-sight and journal messages and stores the same status, notice time and journal id, all along, if and only if no event parts them: an exception met in the timers of one only while the journal has news, or a commit at which one only has something to write while memory and row differ |
| Polling.UndisturbedNeverPart | src/bot/processor.py:57-74 | they never part if no visit both make meets an exception and the full run removes no row under a cycle in progress, whatever the skipped visits meet |
| Polling.PartedBySweep | src/bot/scheduler.py:235-255 | they part at a commit only if a cleanup removed the row under the cycle |
| PollingWitness.SweepPartsBots | src/bot/scheduler.py:235-255 | a history in which a cleanup removes the row under a cycle that only the full bot writes: the two part at the commit |
| PollingWitness.ExceptionPartsBots | src/bot/processor.py:266-303 | a history in which an exception strikes both after the same number of points, before the journal for the skipping bot only, whose overdue notice was still due: they part at that visit |
| Polling.AlwaysRemembered | src/bot/processor.py:57-74 | what the skipping bot has recorded as processed is no news to its memory or row, through exceptions, rollbacks and removals |
| CoreEffects.VisitCore | src/bot/processor.py:149-303 | an undisturbed visit's messages and stored values, timers aside, in closed form |
| CoreEffects.VisitSettles | src/bot/processor.py:149-303 | after a visit the same status and journal are no news |
| CoreEffects.DoneIsCore | src/bot/processor.py:149-307 | a visit that does not raise does what an undisturbed one does, however many exceptions were to come |
| CoreEffects.VisitsPart | src/bot/processor.py:149-307 | two visits with the same stored values and the same exception to come, but other timers, have the same effect if and only if both are cut short or neither, or the journal has no news |
| CoreEffects.SettledVisit | src/bot/processor.py:149-307 | a visit to an issue without news changes nothing but timers, cut short or not |
| UserHistory.EachIssueAlone | src/bot/processor.py:134-307 | in any history of a user's issues together, each issue's row, entry and messages are those of its own history |
| UserHistory.SaveMirrorsMemory | src/bot/processor.py:305-322 | after the save, reloading gives an issue's dictionaries back up to what is not persisted, even if an exception abandoned it, if and only if its row was written, or was not removed under the cycle, or held nothing; a clean issue's row is as before |
| UserHistory.ReloadLosesSwept | src/bot/scheduler.py:235-255 | a cycle that writes nothing and under which the row is removed: reloading does not give the memory back |
| VisitMessages.VisitOver | src/bot/processor.py:134-303 | what a visit does and sends does not depend on the messages sent before it |
| VisitMessages.VisitAbout | src/bot/processor.py:134-303 | a visit's messages are about the visited issue |
| Processor.AnnouncementReaches | src/bot/processor.py:165-194 | the announcement of a first-seen issue reaches exactly the user's room, the group members' rooms, the group's room if subscribed, and the rooms routed by version and status |
| Processor.UserCycle.ProcessIssue | src/bot/processor.py:149-307 | one turn of the loop on the four dictionaries and four sets has the effect of a visit on its issue, an exception leaving what was done so far, and touches no other issue |
| Processor.UserCycle.ProcessAll | src/bot/processor.py:134-307 | the loop over all issues is the fold of the visits; an abandoned issue does not stop the next |
| Processor.UserCycle.NoteStatus | src/bot/processor.py:150-162 | section 1 on the dictionaries: the change is announced before it is recorded, nothing is recorded when that raised, and no other issue's entry changes |
| Processor.UserCycle.Spread | src/bot/processor.py:167-175 | the announcements go out in order and stop at the first exception, with everything before it sent |
| Processor.UserCycle.Branch | src/bot/processor.py:164-263 | sections 2 to 6 on the dictionaries: which of them runs is decided by status and by whether the issue is known; no other issue's entry changes |
| Processor.UserCycle.RepeatToGroup | src/bot/processor.py:201-216 | the message to the group's room is repeated when its in-memory time has come, and the time set only after the attempt |
| Processor.UserCycle.Remind | src/bot/processor.py:228-245 | the reminder is sent when its time has come, and its time set only after the attempt |
| Processor.UserCycle.NoteOverdue | src/bot/processor.py:265-272 | section 7 on the dictionaries: at most one notice, its time set only after the attempt |
| Processor.UserCycle.NoteJournals | src/bot/processor.py:274-303 | section 8 on the dictionaries: the last id moves only if the message about the new entries did not raise |
| Processor.Max | src/bot/logic.py:341-341 | the largest journal id |
| Processor.Newer | src/bot/logic.py:342-342 | exactly the entries above the last known id |
| Routing.GroupDecidesForItsRoom | src/bot/logic.py:273-300 | in the group's room the group's own subscriptions decide, whatever the user's list says |
| Routing.CfgForRoom | src/bot/logic.py:273-300 | in the group's room the group's own list (everything, if it has none), hours, days and do-not-disturb apply; elsewhere nothing changes, and the rooms never do |
| Routing.GroupMemberRooms | src/bot/logic.py:251-266 | the nonblank rooms of the users of the same group |
| Routing.RouteRoomsOf | src/bot/logic.py:210-214 | the rooms of the user's routes whose key occurs in the version's name |
| Routing.MapRoomsOf | src/bot/logic.py:215-221 | the rooms of the shared map whose key occurs in the version's name, in whatever order it is walked |
| Routing.ExtraRoomsForVersion | src/bot/logic.py:195-222 | both together, or the fallback room when the issue has no version |
| Routing.WantedByName | src/bot/logic.py:148-154 | which notifications a list of strings admits, one by one; no list and "all" admit every one |
| Routing.GroupWantsByName | src/bot/logic.py:273-300 | the group's room hears of new issues exactly when there is one and the list in force there, the group's own or the user's, admits them |
| Routing.ExtraRoomsExactly | src/bot/logic.py:195-245 | a room is reached exactly through a route or map key that, stripped and whatever the case, occurs in the version's name; without a version through the fallback key alone; and in the status "handed over" also through that status |
| IssueState.ReloadGivesPersisted | src/database/state_repo.py:33-53 | a stored entry is read back up to the group time and the zone, and what was read once is read the same again |
| IssueState.StateTables.TryAcquireUserLease | src/database/state_repo.py:56-85 | granted exactly when there is no lease, its end lies before now, or it is the caller's own; then and only then the row changes |
| IssueState.StateTables.LoadUserIssueState | src/database/state_repo.py:88-99 | for every issue, the dictionaries hold what its row says, and nothing without a row |
| IssueState.StateTables.AddRow | src/database/state_repo.py:42-51 | one row fills its own issue's entries and no other's |
| IssueState.StateTables.UpsertUserIssueState | src/database/state_repo.py:139-180 | exactly the named issues' rows become what the dictionaries hold; every other row of every user stays |
| IssueState.StateTables.DeleteStateRowsNotInOpen | src/database/state_repo.py:183-206 | exactly the user's rows outside the open set go (all of them for an empty set), and their number is returned |
| MatrixSend.RoomSendWithRetry | src/matrix_send.py:33-83 | min(n, first success) calls; fails exactly when all n failed, with the last error; sleeps base * (2^(calls-1) - 1) in all |
| MatrixSend.FirstSuccessIsReturned | src/matrix_send.py:47-83 | an exception, a send error or a status code is a failure, the last two unless an event id is given: the first other answer is returned and no call follows it, and if all fail the last failure is raised after n calls |
| MatrixSend.PausesClosed | src/matrix_send.py:71-79 | the sum of the doubling pauses in closed form |
| MatrixSend.PatienceOnlyHelpsFailures | src/matrix_send.py:43-69 | more attempts change the outcome only when the first n all fail, and never make fewer calls |
| Dlq.AlwaysSound | src/database/dlq_repo.py:17-90 | over every history of arrivals and attempts the table stays ordered, backed off, conserved and counted |
| Dlq.RetriesBackOff | src/database/dlq_repo.py:72-90 | a stored row waits at least 120 * 2^failures seconds from its arrival; attempt k is no earlier than 120 * 2^(k-1) seconds after it; attempts are numbered 1, 2, 3 and never exceed 5 |
| DlqPauses.RetriedExactlyWhen | src/database/dlq_repo.py:21-90 | in every reachable table a row holds what arrived, how often it failed and the last error, and is next due exactly 120 seconds after its arrival, or 120 * 2^(k-1) seconds after its k-th failure was recorded; it is fetched as soon as that instant has come, unless it has failed five times |
| DlqPauses.NeverTooEarly | src/database/dlq_repo.py:50-61 | no attempt is ever made before that instant or after the fifth failure |
| Dlq.DeliveredOnceOrStored | src/database/dlq_repo.py:64-90 | every notification that arrived is either stored as it arrived with its failures counted, or was delivered once and is gone |
| Dlq.AttemptSpends | src/database/dlq_repo.py:51-58 | the sum of (5 - retry count) over stored rows falls with every attempt, by exactly one for a failed one |
| Dlq.AttemptsAreFinite | src/database/dlq_repo.py:51-58 | attempts made plus attempts left are at most five per notification that ever arrived |
| Dlq.SendsPerRow | src/matrix_send.py:43-83 | if an attempt makes at most n client calls, a queued row costs at most 5 * n calls over every history |
| Dlq.CallsPerRow | src/matrix_send.py:43-83 | over every timely sequence of arrivals and retry passes with n attempts each, a queued row costs at most 5 * n client calls |
| Dlq.ActionsAreHistory | src/bot/scheduler.py:280-311 | every such sequence is a history of arrivals and attempts whose attempts are those of the retry loop |
| Dlq.PassIsHistory | src/bot/scheduler.py:280-311 | a retry pass tries each due row once, in order of arrival, and changes no other row |
| Dlq.DueIncreasing | src/database/dlq_repo.py:50-61 | due rows come in order of arrival |
| Dlq.Due | src/database/dlq_repo.py:50-61 | exactly the stored rows that are due |
| Dlq.Queue.EnqueueNotification | src/database/dlq_repo.py:21-42 | a row is added behind the others, first due after 120 seconds |
| Dlq.Queue.MarkSent | src/database/dlq_repo.py:64-69 | the row, and only it, is gone |
| Dlq.Queue.MarkFailed | src/database/dlq_repo.py:72-90 | the row, and only it, is postponed; None if there is no such row |
| Dlq.Queue.RetryDlqNotifications | src/bot/scheduler.py:280-311 | the rows after a pass and the number of deliveries, given the client's answers and the clock |
| RateLimiter.SimpleRateLimiter.Hit | src/admin/helpers.py:148-161 | the answer and the whole map after one call, other keys untouched |
| RateLimiter.WindowNeverOverfull | src/admin/helpers.py:148-161 | over the whole run no half-open interval of window length holds more than the limit of accepted hits; hits answered with yes while limits are switched off are not recorded, and with them the interval holds at most the limit plus their number |
| RateLimiter.RefusedOnlyWhenFull | src/admin/helpers.py:157-161 | a hit is refused if and only if exactly as many accepted hits as the limit lie within the last window |
| RateLimiter.PrunedListSuffices | src/admin/helpers.py:155-157 | although old hits are dropped, the kept list answers every later question as the full history would |
| RateLimiter.PruningIsSilent | src/admin/helpers.py:157-157 | what has left the window never comes back into it |
| EnvFile.RewriteThenParse | src/admin/env_manager.py:42-64 | parsing the rewritten file gives the old settings overridden by the updates if and only if every update is stripped, on one line, its key without '=' and not starting with '#' |
| EnvFile.FormattedLineParses | src/admin/env_manager.py:51-51 | a written line is one line and parses back to its entry exactly for such entries |
| EnvFile.EntryIsClean | src/admin/db_config.py:42-45 | whatever the parser reads is such an entry |
| EnvFile.SplitWritten | src/admin/env_manager.py:64-64 | the text written splits back into the lines it was made of |
| EnvFile.UntouchedLinesStay | src/admin/env_manager.py:46-54 | lines no update touches keep their text and their order |
| EnvFile.RewriteTwice | src/admin/env_manager.py:42-64 | rewriting again with the same updates changes nothing |
| EnvFile.RewriteOverrides | src/admin/env_manager.py:46-59 | the override holds with duplicate key lines and missing keys, later lines winning |
| EnvFile.LoadAfterUpdate | src/admin/db_config.py:47-52 | the panel loads what it saved, and the defaults for what no file sets |
| EnvSettings.SavedIsLoaded | src/admin/db_config.py:47-52 | a clean update of POSTGRES_USER, POSTGRES_DB, POSTGRES_PASSWORD or APP_MASTER_KEY is read back in its own field, and a setting not updated keeps what the old file said |
| EnvSettings.LoadedExactly | src/admin/db_config.py:40-52 | each of the four fields is what the last line with its key says, and its default where no line has one |
| EnvSettings.LineSays | src/admin/db_config.py:42-45 | a line with a key, '=' and a value says so whatever white space stands around them and whatever '=' and '#' the value holds |
| EnvSettings.LineSaysNothing | src/admin/db_config.py:42-43 | a line says nothing exactly if it is blank, begins with '#', or has no '=' |
| EnvSettings.LinesByEnds | src/admin/db_config.py:41-41 | the text is split at every kind of line end, "\r\n" counting once, and a last line without an end counts |
| EnvSettings.WrittenIsEnded | src/admin/env_manager.py:64-64 | every line is written with a newline behind it |
| EnvSettings.MissingInOrder | src/admin/env_manager.py:57-59 | the updates no line mentions are appended in their own order |
| EnvFile.RewriteLines | src/admin/env_manager.py:43-59 | new lines in file order, then the keys no line had, in the order of the updates |
| EnvFile.EnvFile.UpdateEnvFileWithLock | src/admin/env_manager.py:18-67 | the whole new text, with or without a lock; a missing file is an error |
| EnvFile.EnvFile.UpdateInMemoryAndWrite | src/admin/env_manager.py:70-90 | the fallback writes the same text |
| EnvFile.EnvFile.LoadDbConfigFromEnv | src/admin/db_config.py:30-52 | the four settings, later lines winning, defaults for a missing file or key |
| Catalog.NormalisingIsIdempotent | src/admin/helpers_ext.py:292-312 | normalising what has been normalised changes nothing |
| Catalog.KeysAreDistinct | src/admin/helpers_ext.py:308-311 | keys of the result are pairwise distinct |
| Catalog.DroppedExactly | src/admin/helpers_ext.py:304-311 | an item is dropped if and only if it has no label or brings a key already given to an earlier option |
| Catalog.KeylessNeverDropped | src/admin/helpers_ext.py:306-307 | an item with a label and no key of its own is always kept |
| Catalog.EveryOptionHasItem | src/admin/helpers_ext.py:297-312 | every option is some item's, in item order, with that item's label and, if it had one, key |
| Catalog.CatalogKeyFromLabel | src/admin/helpers_ext.py:280-289 | the search ends within as many increments as there are used keys, at the first free name |
| Catalog.TakenAtMost | src/admin/helpers_ext.py:284-288 | pigeonhole: no more numbered names can be taken than there are used keys |
| Catalog.CandidatesDiffer | src/admin/helpers_ext.py:284-288 | base, base_2, base_3, ... are all different |
| Catalog.SlugKeepsWords | src/admin/helpers_ext.py:281-281 | a slug is words of [a-z0-9] joined by single underscores and keeps the letters and digits of the label in order |
| CatalogWords.SlugIsTheWords | src/admin/helpers_ext.py:281-281 | a slug is the maximal runs of letters and digits of the lower-case label, in order, joined by single underscores |
| CatalogWords.KeyExactly | src/admin/helpers_ext.py:280-289 | a generated key is those words, "opt" if there are none, or, if that is taken, they with the least free number from 2 on behind an underscore |
| CatalogWords.DecimalReads | src/admin/helpers_ext.py:287-287 | the number is written in decimal without leading zeros |
| CatalogWords.GeneratedKey | src/admin/helpers_ext.py:306-307 | an item with a label and no key gets the key made of its label after the options before it |
| CatalogWords.ItemSays | src/admin/helpers_ext.py:298-303 | a label, a dictionary's or plain text, and a key are taken without the white space around them, keys in lower case |
| Catalog.NormalizeNotifyCatalog | src/admin/helpers_ext.py:292-312 | the loop with its growing set of used keys gives the normalised list; anything but a list gives none |
| PasswordResets.ResetTokenWorksOnce | src/admin/routes/auth.py:268-298 | over every run a reset token takes effect at most once if and only if no redemption that commits checked the token before another redemption of it committed; and it is marked used exactly when it has taken effect |
| PasswordResets.TokenTakesEffectTwice | src/admin/routes/auth.py:268-298 | a run in which two requests check one token, then both go through |
| PasswordResets.ResetEndsSessions | src/admin/routes/auth.py:296-299 | where no reset of the user commits between another's read of the version and its commit: a login begun before a reset's commit, whenever its session is committed, is never accepted after it |
| PasswordResets.LoginsEndExactly | src/admin/routes/auth.py:284-299 | for every run of resets: no login that could be put into it, begun before a reset's commit, is good afterwards if and only if no reset of the user is so overtaken |
| PasswordResets.LoginInBetween | src/admin/routes/auth.py:195-203 | a login can be put into any run at any two places, and its session is of the current version afterwards exactly if as many resets stand one upon another at both |
| PasswordResets.LoginOutlivesReset | src/admin/routes/app_users.py:98-100 | two overlapping resets by administrators and a login begun between their commits: accepted after both |
| PasswordResets.LevelCounts | src/admin/routes/auth.py:297-297 | as long as none is overtaken, as many resets stand one upon another as have been committed |
| PasswordResets.LevelComesBack | src/admin/routes/auth.py:297-297 | the first reset that is overtaken brings back a height, and so a version, the user has had since another's commit |
| ResetRules.RedeemedInTime | src/admin/routes/auth.py:268-299 | over every run, a reset that commits with a token had it checked strictly before the expiry it was issued with and before any reset with it committed, is of the user it was issued to, and had a good password |
| ResetRules.TokenLetsInExactly | src/admin/routes/auth.py:268-283 | after every run, checking a token puts a reset in progress, for its user, if and only if the token was issued, runs out later, and no reset with it has committed |
| ResetRules.OrByAdmin | src/admin/routes/app_users.py:66-98 | a reset that commits without a token was begun by an administrator, for that user and with a good password |
| ResetRules.DoomedExactly | src/admin/routes/auth.py:299-299 | what a reset's commit deletes are exactly the user's sessions that were committed when its DELETE ran |
| ResetRules.DeletedForGood | src/admin/routes/auth.py:296-300 | whether or not resets overtake one another, a session open when a reset's DELETE ran is never accepted after that reset's commit |
| Sessions.VersionIsLevel | src/admin/routes/auth.py:297-297 | in every reachable state a user's version is the number of resets that stand one upon another, each on those committed when it read the version, not the number of resets |
| Sessions.AcceptedExactly | src/admin/middleware.py:138-168 | over every run a request is accepted if and only if its session was opened, neither logged out nor deleted by a reset that committed, as many resets of its user stand one upon another as when its password was checked, and its time has not run out |
| Sessions.AcceptedInTime | src/admin/middleware.py:141-166 | an accepted request comes less than the idle timeout after the last extension, the first less than the session term after the login |
| Sessions.AcceptedSoonAfterAccepted | src/admin/middleware.py:165-168 | where no request fails after its commit, the last extension is the last accepted request |
| Sessions.IdleExceededExactly | src/admin/middleware.py:165-168 | a request can be accepted the idle timeout or more after the last accepted one if and only if the session is alive and a request that failed after its commit has extended it since, and it has not run out |
| Sessions.TermExceededExactly | src/admin/middleware.py:165-168 | the first accepted request can come the session term or more after the login if and only if the session is alive, such a request has moved its end beyond that, and it has not run out |
| Sessions.LateFaultExtends | src/admin/middleware.py:165-168 | a run in which a request is accepted more than the idle timeout after the last accepted one |
| Sessions.LoggedOutForGood | src/admin/routes/auth.py:303-318 | an open session is never accepted again after its logout, whatever resets are in progress |
| Sessions.Panel.Dispatch | src/admin/middleware.py:138-168 | the answer to a request and the whole new state: only an authentic session is extended |
| Sessions.Panel.LoginPost | src/admin/routes/auth.py:195-201 | the session being built carries the version and the term read at the password check |
| Sessions.Panel.LoginCommit | src/admin/routes/auth.py:202-203 | the session appears with the commit or not at all |
| Sessions.Panel.LogOut | src/admin/routes/auth.py:303-318 | the session, and only it, is gone |
| Sessions.Panel.ResetPasswordPost | src/admin/routes/auth.py:268-283 | a reset by token goes on exactly if the token is known, unused and its expiry lies after now; only then is it in progress |
| Sessions.Panel.ResetPasswordUser | src/admin/routes/auth.py:284-297 | it goes on exactly for a known user and a good password, with the version read here; otherwise it is over and nothing else has changed |
| Sessions.Panel.AppUserResetPasswordAdmin | src/admin/routes/app_users.py:66-99 | a reset by an administrator goes on exactly for an administrator, a known user and a good password, with the version read here |
| Sessions.Panel.DeleteSessions | src/admin/routes/auth.py:299-299 | the sessions of the user that are committed now, and no others, will go with the reset's commit |
| Sessions.Panel.ResetCommit | src/admin/routes/auth.py:296-300 | the commit sets the version to the one read plus one, whatever it has become since, marks the token and removes those sessions; without a commit nothing of it remains |
| Sessions.Panel.ResetFails | src/admin/routes/app_users.py:66-101 | a reset that dies before its commit leaves nothing behind |
| NameMatcher.CanonicalScores | src/user_matcher.py:214-314 | the account made of the transliterated words in any order, joined by '.', '_' or '-', scores two points for every word recognised in it if there are two of them, whatever its display name, and exactly that without one; words of two letters or more are always recognised |
| NameMatcher.CanonicalIsAlwaysMatched | src/user_matcher.py:317-339 | for a name of two words or more such an account keeps the result from being None, among any candidates and under any display name, if and only if at least two words of the name are recognised in it |
| NameMatcher.CanonicalIsMatched | src/user_matcher.py:317-339 | for any minimum up to two points per recognised word, the result is not None when the account is among the candidates |
| NameMatcher.CanonicalScoresExactly | src/user_matcher.py:257-280 | it scores two points for every word under every display name if and only if each one-letter word's transliteration is accounted for by a longer word |
| NameMatcher.OneLetterWordsAreMissed | src/user_matcher.py:261-262 | a name of two letters, each transliterated to two characters or more, whose canonical account scores nothing and is not found |
| NameMatcher.InitialsScoreNothing | src/user_matcher.py:309-312 | a name of one-letter words scores nothing against any account without a display name |
| NameMatcher.BestMatchIsEarliestMaximum | src/user_matcher.py:317-339 | None exactly when nobody scores enough; otherwise the earliest candidate of maximal score |
| NameMatcher.RankedIsStableSort | src/user_matcher.py:338-338 | the ranking is descending and keeps the order of equal scores |
| NameMatcher.FindBestMatch | src/user_matcher.py:317-339 | collecting, ranking and taking the first gives the best match |
| NameMatcher.ScoreMatrixCandidate | src/user_matcher.py:214-314 | the score added up in five sections is the weight of the evidence counted |
| NameMatcher.CountTranslitMatches | src/user_matcher.py:198-207 | the words of two letters or more of which some variant occurs in the joined localpart |
| NameMatcher.MatchesSomeWord | src/user_matcher.py:260-275 | whether some word accounts for a part of the localpart, found at the first |
| NameMatcher.TransliterateVariants | src/user_matcher.py:135-158 | the plain transliterations and each with one ambiguous letter written otherwise, never the empty string |
| NameMatcher.IndexOf | src/user_matcher.py:149-149 | the place where `replace(..., 1)` replaces is the first occurrence |
| Text.FieldsOfJoined | src/user_matcher.py:232-233 | splitting a localpart at separators undoes joining |
| NameMatcher.TranslitIsLower | src/user_matcher.py:125-127 | a transliteration has no upper-case letters left |
| NameSpellings.TranslitJoin | src/user_matcher.py:125-127 | a text is transliterated letter by letter, in order |
| NameSpellings.VariantsExactly | src/user_matcher.py:135-158 | the spellings of a word are its transliteration, that without ё, and either with the first occurrence of one letter of the table that the word contains written otherwise, never empty |
| NameSpellings.LocalpartExactly | src/user_matcher.py:223-224 | the localpart stands between a leading '@' and the first colon; an id of any other form has none |
| NameSpellings.TranslitsTogetherScore | src/user_matcher.py:198-290 | an account made of the transliterated words run together, in any order, scores half a point and one and a half for every word of two letters or more, if there are two of them, under every display name at least and without one exactly, and is never passed over for nobody |
| NameSpellings.RunTogetherScores | src/user_matcher.py:198-290 | the same for any spelling of the words, all with ё or all without: one and a half points for each, and half a point if a plain transliteration stands in it |
| NameSpellings.RunTogetherIsAlwaysMatched | src/user_matcher.py:317-339 | for a name of two words or more such an account keeps the result from being None, among any candidates and under any display name, if and only if two words have two letters or more |
| NameSpellings.SpeltApartScores | src/user_matcher.py:257-280 | an account made of any spellings of the words, or of pieces their transliterations stand in, joined by a separator, scores two points for every word of two letters or more and is never passed over for nobody |
| NameSpellings.OneWordName | src/user_matcher.py:278-280 | a name of one word is found by its transliteration, with half a point |
| NameSpellings.SergeyIsFound | src/user_matcher.py:283-290 | a name of two words and the account of the two run together: 3.5 points |
| NameDisplays.TwoSharedWords | src/user_matcher.py:241-252 | two different words of the name in the display name, in any order and case, with ё or е, score four points or more, so the account is never passed over for nobody |
| NameDisplays.DisplayAloneScores | src/user_matcher.py:241-314 | without a localpart and ё: two points for every different shared word if there are two, one for every word shown in Latin letters if there are two of those too, otherwise nothing |
| NameDisplays.LatinDisplayAdds | src/user_matcher.py:292-308 | on a canonical account a display name of spellings adds one point for every word of two letters or more, and nothing else if it shares no word with the name |
| NameDisplays.YoForgotten | src/user_matcher.py:130-132 | two texts are equal without ё exactly if they differ at most in ё against е |
| NameRule.TwoWordRuleFailsExactly | src/user_matcher.py:214-314 | an account on which fewer than two words of the name match scores all the same exactly where one word alone matches and accounts for two parts of the localpart, or has a ё and stands so in the display name |
| NameRule.OneWordMatchesTwice | src/user_matcher.py:257-280 | a name of two words and an account on which only the first matches, twice |
| NameRule.YoCountsTwice | src/user_matcher.py:241-252 | a name of two words and a display name of the first alone, counted twice for its ё |

## Left out

- Redmine, Matrix, Docker and SQL access, asyncio, FastAPI plumbing, templates, JavaScript, encryption, hashing and token generation: table steps are atomic, and their results are inputs.
- Delivery itself (do-not-disturb, work hours, direct-message rooms, rendering): a message is logged when its sending is attempted. The failures a sender reports by return value are not exceptions of the processing.
- Texts of messages: a status message carries its two statuses, a journal message the ids of the entries that have a text; that only the last five texts are shown is not modelled.
- `last_check_time` as a filter of the fetch: the set of issues fetched is an arbitrary input. That no update of an issue is ever missed is not claimed.
- The route from a failed message to the dead-letter queue: the processing sends without a database session, so nothing is enqueued there; the queue is modelled through its own operations.
- Polling.IncrementalRefinesFull: an exception of a visit both bots make strikes both after the same number of points that can raise; timers (reminders, overdue notices, group repeats) fire on visits and are not compared.
- JournalCover.JournalExactlyCovered: an entry without a text is taken in silently; which of the entries that record nothing but a change of status are so, `JournalReportedExactly` decides.
- Dlq.PassIsHistory: one consumer whose passes are committed; two concurrent passes, or a pass whose commit fails, can send a message twice. A row's creation time and the time from which its first pause counts are taken as one instant.
- PasswordResets.ResetEndsSessions: a request is one step, and so is a logout, each taken while no reset that has deleted its session waits to commit; that a request could read its session before such a reset's commit and fail to extend it after is left to the request's faults. Accounts and reset tokens are created by steps of the model; users are never deleted by the modelled routes.
- Text.Lower: lower-cases Latin and Cyrillic letters only, not all of Unicode.
- EnvFile.RewriteThenParse: the file's text is taken as decoded; file locking and partial writes are not modelled.
- NameMatcher.RankedIsStableSort: stands for the library's stable sort. Scores are exact numbers, which halves and small multiples are in floating point too.
- Reports, search queries for the Matrix directory, paged fetches, the catalog of versions, plural forms, time zone lists and migrations: they do not touch the state modelled here.
