# Clash Lens: what its state machines and its arithmetic promise

This project models the parts of Clash Lens that keep state over time or carry real arithmetic,
and proves what they promise. `dafny verify dfyconfig.toml` checks all of it.

| files | what they are about |
|---|---|
| `AlertDelivery`, `AlertLoop` | attack alerts as Discord DMs: a durable claim, an in-memory retry list, a nonce window, crashes, several bot processes, log pruning |
| `SummaryPacking`, `SummaryDelivery` | Legend day summaries: boxes packed into DMs, DMs delivered in order |
| `Incidents`, `AlertRun`, `ResetClock` | private alerts: an alert/recovery machine with a hold-off, its loops, and the clock that leaves the Reset minutes out |
| `Crews`, `CrewRights`, `CrewProtocol`, `CrewAlone`, `CrewWrites`, `CrewGuarantees` | crews: the tables' rules, who may write what and what it changes, the writes interleaved under row locks, one alone, the writes row by row, what they mean to a crew's people |
| `SharedCopy`, `SharedCopyWork`, `SharedCopyStarts`, `BoardProjector` | a single-flight stale-while-refresh copy with backoff; a board reader and a projector handing over under one lock |
| `Verification`, `VerificationAnswers`, `VerificationWrites`, `Permits`, `Windows` | repeat-safe verification requests, the attempt limit, the key's permits, sliding windows |
| `Board`, `RankRange`, `SimilarHeld` | the board of best and worst ends, rank ranges, the held share near some trophies |
| `OfficialTies`, `TieOrder`, `Sorting` | the boards' order of equal trophies |
| `LatestChanges`, `ArmyDays` | read-through caches that agree with reading everything afresh |
| `GroupDifference` | the comparison of a group's members |

Protocols are state machines: a `Step` datatype, `Enabled`, `Next`, an invariant proved step by
step, and theorems over every `Run`. Code that updates fields or lists is also written as a
`class` or a method with loops, whose contract ties it to the machine's steps or to a
specification function. Python objects that methods update in place are the classes
`AlertLoop.Loop`, `SummaryDelivery.SummaryLoop`, `AlertRun.CheckRun`, `CrewWrites.CrewDatabase`,
`SharedCopy.CopyFields`, `BoardProjector.DashboardBoard`, `Permits.PermitTable`,
`VerificationWrites.VerificationTables` and `ArmyDays.Cache`.

## Assumptions

- Times are whole microseconds on one clock; where the code reads its loop's clock and the
  database's, the two agree. In `Windows`, `Permits` and `Verification` a row's time is stamped when it
  is inserted, after the count that let it in (`deploy/migrations/0002_python_layer.sql:2568`).
- A row of the delivery log exists once for each account and event
  (`deploy/migrations/0108_discord_attack_alerts.sql:42-59`), a row of the summary log once for each account and Reset.
- Discord shows a message unless it showed one with the same nonce in the last 120 s. What a try does on Discord,
  it does while the try runs and before its cut-off. A try that fails may have been taken; one that returns was.
- The crew triggers and foreign keys do what `deploy/migrations/0095_crews.sql:25-119` says. Lookups of a
  player's tracking state are a set the write is given; a crew's size is 2 to 100; the request layer lets no join through
  without a tag (`python/src/clashlens/api_crews_http.py:37-46`).
- Published logs never change, each log's reports are read in the order they were saved, and a day's totals depend
  only on its completed-day marker.
- Each section under a Python lock, and each transaction from its first row lock to its commit on the rows it
  locks, is one step or one method call.

## Findings

- `hold_recoveries` raises `KeyError` exactly when a condition has no clear time yet and the last resume is later than the clock
  (`Incidents.HoldRaises`).
- Accepting an invite with no tags would seat a member without a place; only the request layer's minimum keeps that out
  (`Crews.AcceptSeatsMembersPlaced`).
- An owner who holds no place, as a support transfer can leave one, cannot take away the first one they add
  (`CrewGuarantees.RemoveUndoesAdd`).
- A background thread that cannot be started leaves the flag set that was set before the start. A shared copy with two
  different ages can be refreshed in the background again, and the dashboard's board read again, exactly when no start was lost
  (`SharedCopyStarts.RefreshesGoOnExactly`, `BoardProjector.ReadsGoOnExactly`; runs that lose a start:
  `SharedCopyStarts.AStartCanBeLost`, `BoardProjector.AStartCanBeLost`).
- The attack times that `_latest_changes` goes by do not depend on which logs were kept exactly when no two newest logs
  end a battle's attack at different times, as holds while a battle's attack reports are all in its one attacker's log
  (`LatestChanges.KeptMattersExactly`); with two such logs a third player's latest change depends on what was kept
  (`LatestChanges.DisagreementIsPossible`).
- A battle of a saved Legend day can widen someone's rank range exactly when no slot was open for it and it moved trophies,
  as a ninth attack does; without a saved day a range can widen exactly when the trophies changed
  (`RankRange.BattleWidensExactly`, `RankRange.UnknownDayShifts`).

## Model

| member | source | states |
|---|---|---|
| AlertDelivery.NeverSentTwice | python/src/bot/alerts.py:18-26 | over every run of any number of bots, crashes, lost and ambiguous tries and deleted log rows, at most one message is shown for each attack or confirmation |
| AlertDelivery.TriesStayBounded | python/src/bot/alerts.py:502-538 | a DM is tried at most four times, none before its log row and each strictly within 120 s of the first |
| AlertDelivery.ShorterMemorySendsTwice | python/src/bot/alerts.py:58-80 | for every nonce memory below 120 s some run shows a DM twice, so the bound is the least that keeps the promise |
| AlertDelivery.ClaimIsFirst | python/src/bot/alerts.py:299-347 | while an event is still due and has no row, it was never claimed before, although rows are deleted after seven days |
| AlertDelivery.ClaimableExactly | python/src/bot/alerts.py:299-318 | over every run, a running bot can claim an event exactly in the 15 minutes after it was saved or asked for, when it was never claimed before |
| AlertDelivery.LetGoIsNeverShown | python/src/bot/alerts.py:18-32 | over every run, nothing more is ever shown of a claimed event that no running bot holds, whatever bots start afterwards |
| AlertDelivery.CrashCanLose | python/src/bot/alerts.py:18-32 | a run in which a bot stops after its claim and no continuation ever shows the alert |
| AlertDelivery.StepKeepsInv | python/src/bot/alerts.py:387-538 | every step keeps claims due, claimed once, held by one process, shown once and tried on schedule |
| AlertDelivery.RetryOnSchedule | python/src/bot/alerts.py:404-414 | a retry that is due keeps the DM's tries on their schedule |
| AlertDelivery.EndOnSchedule | python/src/bot/alerts.py:520-532 | a try that Discord could not take leaves the DM waiting only if its next try still fits the schedule |
| AlertDelivery.EndLeaves | python/src/bot/alerts.py:520-532 | a try that ends leaves the DM waiting, for the doubled wait within 10 to 120 s or Discord's own if longer, exactly when Discord could not take it and that wait ends within 120 s of the first try; otherwise the bot lets go of it |
| AlertDelivery.TakenIsShown | python/src/bot/alerts.py:58-80 | what Discord takes it shows, unless it showed a message with the same nonce within its memory |
| AlertDelivery.PrunedExactly | python/src/bot/alerts.py:299-347 | exactly the log rows older than seven days are deleted, and nothing else changes |
| AlertLoop.PassKeepsTheRest | python/src/bot/alerts.py:404-414 | a pass over the waiting list leaves exactly the DMs that were not ended, once each, although the list changes as it is gone through |
| AlertLoop.FateExactly | python/src/bot/alerts.py:502-538 | what becomes of a waiting DM, told from its times and what Discord did: it stays exactly while it is not due yet, waits again exactly when a try in time could not be taken and leaves time, is finished as sent exactly when its try returned, as refused exactly when Discord refused it, and as failed otherwise |
| AlertLoop.EndedExactly | python/src/bot/alerts.py:404-414 | a pass finishes exactly the DMs that end so, each with that ending |
| AlertLoop.Loop.Send | python/src/bot/alerts.py:502-538 | one try, by enabled steps of the delivery machine: tried exactly with time left, then waiting again, or logged sent, refused or failed by what Discord did; it counts one sent exactly when the try returned, and what it logged as sent is shown |
| AlertLoop.Loop.RetryWaiting | python/src/bot/alerts.py:404-414 | the loop over the waiting list does the pass: it tries exactly the DMs that are due with time left, logs each end that is due to what Discord did and no other, counts exactly the tries that returned, everything logged as sent is shown, and all by enabled steps of the delivery machine, other bots' steps between them |
| AlertLoop.Loop.ClaimDm | python/src/bot/alerts.py:494-500 | a DM that is claimed is logged and tried by the machine's steps, and ends by what Discord did; one that is not changes nothing |
| AlertLoop.LoopsNeverSendTwice | python/src/bot/alerts.py:387-538 | whatever these loops do after any run, no event is shown twice |
| SummaryDelivery.SummaryLoop.Deliver | python/src/bot/summaries.py:366-404 | whatever waits Discord asks for, at most four tries, each begun strictly within 120 s of the first and before the next Reset, and another one exactly when Discord could not take the last and time is left; the result is what the last try came to, at most one message is shown, and one is when it reports sent |
| SummaryDelivery.SummaryLoop.Send | python/src/bot/summaries.py:344-364 | the messages shown of a summary are its first parts, in order, and only one more than counted as sent; it goes on exactly after a part that was sent while the summary is due, and all were sent exactly when it reports sent |
| SummaryDelivery.ClaimedOnce | python/src/bot/summaries.py:257-302 | over every run of claims and pruning an account's Reset is claimed at most once |
| SummaryDelivery.ClaimableExactly | python/src/bot/summaries.py:257-302 | over every run, also once its row was deleted, a summary can be claimed at a time exactly in the day from its Reset and when it was never claimed |
| SummaryDelivery.PrunedExactly | python/src/bot/summaries.py:296-302 | pruning deletes the row exactly once it is older than seven days |
| SummaryPacking.Pack | python/src/bot/replies.py:860-868 | every box once and in order, no DM empty, each within 8 boxes and 3,700 characters unless it is a single box, and no other in-order split within the limits uses fewer DMs |
| SummaryPacking.FewestDMs | python/src/bot/replies.py:860-868 | a packing that never closes a DM with room for the next box uses the fewest DMs |
| SummaryPacking.StaysAhead | python/src/bot/replies.py:860-868 | after as many DMs the packing holds at least as many boxes as any other split |
| SummaryPacking.CardsKept | python/src/bot/replies.py:860-868 | each DM is a stretch of the boxes that is not empty and begins where the one before ends |
| Incidents.MessagesAlternate | python/src/clashlens/alerts.py:692-764 | over every run of checks, failed and ambiguous deliveries and stops, delivered messages go alert, recovery, alert, and a repeated one is the same text |
| Incidents.RecoveryWaited | python/src/clashlens/alerts.py:692-730 | over every run, a recovery is created only after 900 s of saved checks that were all clear, since its own time, since the alert was delivered, and not since before a resume |
| Incidents.RecoveryWaitsForDelivery | python/src/clashlens/alerts.py:692-763 | over every run, a recovery is created no sooner than 900 s after the step that delivered and recorded the last alert, whatever field that time is kept in |
| Incidents.RecoveryComes | python/src/clashlens/alerts.py:692-730 | an incident that stays clear, with none pending, is let recover at the first check 900 s after it cleared and after its alert, and the recovery is dated by when it cleared |
| Incidents.RecoveryHeldExactly | python/src/clashlens/alerts.py:692-706 | a clear finding of an open incident is held exactly until 900 s after the clear time, which a resume starts anew, and after the alert |
| Incidents.HoldLetsThrough | python/src/clashlens/alerts.py:692-706 | any other finding goes through unchanged and forgets the clear time |
| Incidents.CreatedTells | python/src/clashlens/alerts.py:716-735 | the change created is the one found: an alert dated by the check and since the given time, a recovery since the alert's own time |
| Incidents.RecoveryNamesItsAlert | python/src/clashlens/alerts.py:709-764 | over every run, a recovery names the same beginning as the alert it follows |
| Incidents.PostedIsSaved | python/src/clashlens/alerts.py:736-763 | a message that is sent is the saved pending change, with its own state, times and detail |
| Incidents.StopRepeats | python/src/clashlens/alerts.py:736-763 | a check stopped between its request and the save sends the very same message again |
| Incidents.PendingIsNeverDropped | python/src/clashlens/alerts.py:709-764 | over every run, a saved pending change is at any later time still pending, unchanged, or its message is among those Discord took |
| Incidents.StepKeepsInv | python/src/clashlens/alerts.py:692-764 | every step keeps messages alternating, the saved incident in agreement with them, and the clear time backed by clear checks |
| Incidents.HoldRaises | python/src/clashlens/alerts.py:692-706 | hold_recoveries raises exactly when nothing is clear yet and the last resume is later than the clock |
| AlertRun.CheckRun.HoldRecoveries | python/src/clashlens/alerts.py:692-706 | the loop holds every named condition and leaves every other, or raises for the first whose key is missing |
| AlertRun.CheckRun.HoldIsObserve | python/src/clashlens/alerts.py:1299-1310 | what the loop does to a saved condition is the machine's check step |
| AlertRun.CheckRun.Begin | python/src/clashlens/alerts.py:716-735 | the pending change is saved before it is sent: an alert at the check's time since the problem began, or by the failing backup, and a recovery at the time it cleared |
| AlertRun.CheckRun.Post | python/src/clashlens/alerts.py:736-763 | the saved change is sent; only after its request returned is it recorded and saved, an alert with the time of its delivery, and otherwise it stays pending |
| AlertRun.CheckRun.DeliverOne | python/src/clashlens/alerts.py:713-763 | at most two requests deliver one condition by steps of the machine, the second only of the change found after one that waited was sent; it fails exactly when a request fails, Discord has just the messages it took, and with none failed the condition is what the check found |
| AlertRun.CheckRun.Deliver | python/src/clashlens/alerts.py:709-764 | every condition is delivered by steps of its machine, and it reports delivered exactly when no request that was made failed, which is when every one is what was found with nothing pending |
| AlertRun.WalkExtendsRun | python/src/clashlens/alerts.py:1274-1313 | a run goes on with the steps these loops take, so what holds over every run holds of them |
| ResetClock.ElapsedWithoutReset | python/src/clashlens/alerts.py:638-648 | subtracting two windows leaves exactly the time of the last day outside every 04:55-05:00 UTC |
| ResetClock.TwoOverlapsAreAllQuiet | python/src/clashlens/alerts.py:645-647 | within a day of any start the windows of that day and the next are all there are |
| ResetClock.CountedWithinADay | python/src/clashlens/alerts.py:638-648 | the result is never negative and never above 86,100 s |
| ResetClock.CountedNeverFalls | python/src/clashlens/alerts.py:638-648 | the result never falls as the end grows |
| Crews.WriteKeepsGood | python/src/clashlens/api_crews.py:496-754 | every accepted write keeps one owner for each crew, places within its size, every place held by a member with the link, every other member placed, and at most five crews for an account |
| Crews.AcceptSeatsMembersPlaced | python/src/clashlens/api_crews.py:989-1026 | an accepted invite keeps every member placed exactly when a tag is given or the caller was a member |
| Crews.WithoutPlacesKeeps | deploy/migrations/0095_crews.sql:75-96 | taking places away, with the trigger that puts unplaced members out, keeps every rule |
| Crews.LinkGoneKeeps | deploy/migrations/0095_crews.sql:98-119 | a link that goes or moves takes the player's places with it and keeps every rule |
| Crews.AddingKeeps | python/src/clashlens/api_crews.py:122-211 | a join or addition that passed the rules keeps every rule |
| Crews.HandOverKeeps | python/src/clashlens/api_crews.py:698-734 | the tables after a handover, the new owner and the old one an admin or gone without a place, keep every rule |
| CrewRights.AcceptedExactly | python/src/clashlens/api_crews.py:496-754 | a write is accepted exactly when its caller may make it, told from the tables: who may resize, delete, set roles, hand over, remove, leave and unlink, and which tags may join |
| CrewRights.AnswerIsFirstBroken | python/src/clashlens/api_crews.py:55-211 | the answer is the first rule in their order that the write breaks, and none exactly when it breaks none |
| CrewRights.ChecksExactly | deploy/migrations/0095_crews.sql:1-60 | of an accepted write the tables' own checks stop only a crew size outside 2 to 100 |
| CrewRights.RolesChangeExactly | python/src/clashlens/api_crews.py:670-734 | only the crew's owner changes a role: the named member's to the one set, or both by handing over |
| CrewRights.SeatsGainedExactly | python/src/clashlens/api_crews.py:122-211 | only the caller gains a seat, as owner by creating or as member by accepting |
| CrewRights.SeatsLostExactly | deploy/migrations/0095_crews.sql:75-119 | exactly these seats go: a deleted crew's, a leaver's, an old owner's without a place, and a non-owner's whose only place was taken |
| CrewRights.PlacesExactly | python/src/clashlens/api_crews.py:122-211 | exactly the named players get places, held by the caller, exactly the named places go, and none changes hands |
| CrewRights.SizesExactly | python/src/clashlens/api_crews.py:496-572 | crews come, go and change size only by create, delete and resize |
| CrewRights.LinksExactly | python/src/clashlens/api_accounts.py:1261-1327 | a link goes or moves only by its holder, and comes only where there is none |
| CrewProtocol.RunsKeepCrewRules | python/src/clashlens/api_crews.py:55-94 | in every interleaving the row locks allow, the tables keep all their rules at all times |
| CrewProtocol.CommitsAreSerial | python/src/clashlens/api_crews.py:55-94 | each commit does what the write would do alone on the tables it meets; the only difference is a limit refusal for an account that has since left a crew |
| CrewProtocol.OthersStayCurrent | python/src/clashlens/api_crews.py:76-94 | what a write read under its locks is still true after any other write commits |
| CrewProtocol.EffectsStayInCrew | python/src/clashlens/api_crews.py:76-94 | a write leaves every row of every crew it does not lock |
| CrewProtocol.StepKeepsInv | python/src/clashlens/api_accounts.py:1261-1327 | every step of every write keeps the rules, the locks held once, and each write's reads current |
| CrewAlone.RunsAlone | python/src/clashlens/api_crews.py:55-94 | every write can run to its commit when no other is in progress, and then does what the write does alone |
| CrewGuarantees.OwnershipMovesByHandOver | python/src/clashlens/api_crews.py:670-734 | a crew that stays changes owner only when its owner hands it over, and then to the one named |
| CrewGuarantees.SeatsGoOnlyByRight | python/src/clashlens/api_crews.py:596-640 | nobody loses a seat by another's write unless the owner removes or deletes, or an admin removes a plain member |
| CrewGuarantees.LeaveUndoesAccept | python/src/clashlens/api_crews.py:737-754 | leaving after joining by an invite is accepted and restores the tables to the row |
| CrewGuarantees.DeleteUndoesCreate | python/src/clashlens/api_crews.py:560-572 | deleting a crew just created is accepted and restores the tables to the row |
| CrewGuarantees.RemoveUndoesAdd | python/src/clashlens/api_crews.py:596-640 | removing a player just added is accepted, and then restores the tables, exactly when the caller held a place before |
| CrewWrites.CrewDatabase.AddPlaces | python/src/clashlens/api_crews.py:122-211 | the first failed join rule is the answer and nothing changes; otherwise the member and one place for each tag are there |
| CrewWrites.CrewDatabase.DeletePlaces | deploy/migrations/0095_crews.sql:75-96 | running the trigger once for each row that went, in any order, puts out exactly the members left unplaced |
| CrewWrites.CrewDatabase.CreateCrew | python/src/clashlens/api_crews.py:496-525 | answers and writes as specified, or leaves the tables as they were |
| CrewWrites.CrewDatabase.UpdateCrew | python/src/clashlens/api_crews.py:528-557 | answers and writes as specified, or leaves the tables as they were |
| CrewWrites.CrewDatabase.DeleteCrew | python/src/clashlens/api_crews.py:560-572 | answers and writes as specified, or leaves the tables as they were |
| CrewWrites.CrewDatabase.AddPlayers | python/src/clashlens/api_crews.py:575-593 | answers and writes as specified, or leaves the tables as they were |
| CrewWrites.CrewDatabase.AcceptInvite | python/src/clashlens/api_crews.py:989-1026 | answers and writes as specified, or leaves the tables as they were |
| CrewWrites.CrewDatabase.RemovePlayer | python/src/clashlens/api_crews.py:596-640 | answers and writes as specified, or leaves the tables as they were |
| CrewWrites.CrewDatabase.SetMemberRole | python/src/clashlens/api_crews.py:670-695 | answers and writes as specified, or leaves the tables as they were |
| CrewWrites.CrewDatabase.HandOverCrew | python/src/clashlens/api_crews.py:698-734 | answers and writes as specified, or leaves the tables as they were |
| CrewWrites.CrewDatabase.LeaveCrew | python/src/clashlens/api_crews.py:737-754 | answers and writes as specified, or leaves the tables as they were |
| CrewWrites.CrewDatabase.UnlinkPlayer | python/src/clashlens/api_accounts.py:1261-1327 | answers and writes as specified, or leaves the tables as they were |
| SharedCopy.AnswersAreTheAskers | python/src/clashlens/api_db.py:485-521 | every answer was read for the asker's key and is younger than the longest age unless the asker read it |
| SharedCopy.OneReadOneRefresh | python/src/clashlens/api_db.py:491-552 | at most one read and at most one background refresh exist at a time |
| SharedCopy.BackgroundReadsWait | python/src/clashlens/api_db.py:523-552 | after k failures in a row the next background read starts no sooner than min(seconds * 2^(k-1), 300) after the last one |
| SharedCopy.CopiesNeverGoBack | python/src/clashlens/api_db.py:514-521 | a stored copy is never replaced by one whose read started earlier |
| SharedCopyWork.RefreshReads | python/src/clashlens/api_db.py:523-552 | over every run, a background refresh that ends stored a copy of its own, or its read failed, or under the read lock it found no copy of its key |
| SharedCopyWork.RequestsAreAnswered | python/src/clashlens/api_db.py:485-521 | over every run, a request that was waiting leaves with exactly one answer for its own time, unless its own read failed |
| SharedCopyWork.ReadIsStored | python/src/clashlens/api_db.py:514-521 | over every run, a read that succeeds replaces the stored copy, with the reader's key and the clock at its start, and ends the backoff |
| SharedCopyWork.ReadBegan | python/src/clashlens/api_db.py:514-521 | over every run, a thread that is reading began to at the time its copy will carry |
| SharedCopyWork.YoungIsServed | python/src/clashlens/api_db.py:491-507 | a copy of the request's key younger than the age is served and nothing else happens |
| SharedCopyWork.OldIsServed | python/src/clashlens/api_db.py:491-507 | an older copy within the longest age is served at once, and a refresh starts beside it exactly while none runs and the backoff has passed |
| SharedCopyWork.NothingIsRead | python/src/clashlens/api_db.py:491-508 | with no such copy the request waits to read, and nothing is answered yet |
| SharedCopyWork.RequestLooksAgain | python/src/clashlens/api_db.py:508-512 | under the read lock a request is answered with a copy that has become young, and otherwise reads |
| SharedCopyWork.RefreshLooksAgain | python/src/clashlens/api_db.py:523-530 | under the read lock a refresh reads exactly while the stored copy is of its key |
| SharedCopyStarts.RefreshesGoOnExactly | python/src/clashlens/api_db.py:491-552 | over every run, some further steps let a background thread replace the copy by one whose read started later exactly when the two ages differ and no earlier start failed |
| SharedCopyStarts.LostExactly | python/src/clashlens/api_db.py:498-507 | a start is lost exactly when some earlier step set the flag and its thread could not be started |
| SharedCopyStarts.FlagStuckExactly | python/src/clashlens/api_db.py:503-507 | the flag is set with no background thread exactly when a start was lost |
| SharedCopyStarts.AStartCanBeLost | python/src/clashlens/api_db.py:503-507 | a run whose last state lost a start and can never refresh again |
| SharedCopy.StepKeepsInv | python/src/clashlens/api_db.py:485-552 | every step keeps one reader, the flag in step with the refresh, copies and answers of their keys, and the backoff |
| SharedCopy.CopyFields.Offer | python/src/clashlens/api_db.py:491-507 | the first locked section is the machine's request step: what it serves is the answer given, nothing to serve makes the request wait to read, and the flag is set exactly when a refresh is to start |
| SharedCopy.CopyFields.LookAgain | python/src/clashlens/api_db.py:508-512 | under the read lock a young copy is the answer, otherwise the request is the one to read |
| SharedCopy.CopyFields.StillCurrent | python/src/clashlens/api_db.py:523-530 | a refresh goes on to read exactly while the copy is still of its key |
| SharedCopy.CopyFields.ReadCopy | python/src/clashlens/api_db.py:514-521 | storing a read is the machine's step, for requests and refreshes alike, and the thread leaves with what it read |
| SharedCopy.CopyFields.NoteFailure | python/src/clashlens/api_db.py:531-537 | a failed refresh is the machine's step, and the delay left is min(seconds * 2^k, 300) after k earlier failures in a row |
| SharedCopy.CopyFields.EndRefresh | python/src/clashlens/api_db.py:550-552 | the last section is the machine's step, after which no background thread is left |
| BoardProjector.NoBoardIsLost | python/src/clashlens/api_dashboard.py:556-572 | whenever nothing projects, the newest board has itself been projected, even one read during another's projection |
| BoardProjector.NewestPlacesAreStored | python/src/clashlens/api_dashboard.py:556-572 | over every run, whenever nothing projects and the newest board's places were worked out, they are the stored ones, with its day |
| BoardProjector.StoredExactly | python/src/clashlens/api_dashboard.py:563-567 | over every run, storing worked-out places stores them with their own board's day; a failed projection and every other step change none |
| BoardProjector.ReadIsNewest | python/src/clashlens/api_dashboard.py:551-562 | a board that is read becomes the newest one, for the day it was read for |
| BoardProjector.OneThreadProjects | python/src/clashlens/api_dashboard.py:556-572 | at most one thread projects, and only while the flag is set |
| BoardProjector.PlacesCarryTheirDay | python/src/clashlens/api_dashboard.py:563-567 | stored places carry the day of the board they came from |
| BoardProjector.PlacesNeverGoBack | python/src/clashlens/api_dashboard.py:563-572 | an older board's places never replace a newer one's |
| BoardProjector.ReadsGoOnExactly | python/src/clashlens/api_dashboard.py:506-561 | over every run, some further steps start a read of the board exactly when no earlier start failed |
| BoardProjector.LostExactly | python/src/clashlens/api_dashboard.py:508-515 | a start is lost exactly when some earlier step set the flag and its thread could not be started |
| BoardProjector.FlagStuckExactly | python/src/clashlens/api_dashboard.py:508-515 | the flag is set with no thread reading exactly when a start was lost |
| BoardProjector.AStartCanBeLost | python/src/clashlens/api_dashboard.py:508-515 | a run that loses its first start and never reads the board |
| BoardProjector.StepKeepsInv | python/src/clashlens/api_dashboard.py:529-572 | every step keeps one reader, one projector, and no board lost |
| BoardProjector.DashboardBoard.Start | python/src/clashlens/api_dashboard.py:507-515 | a due read starts exactly when the machine lets it, whether or not its thread then runs |
| BoardProjector.DashboardBoard.ReadFailed | python/src/clashlens/api_dashboard.py:551-555 | a failed read is the machine's step and leaves no thread reading |
| BoardProjector.DashboardBoard.ReadDone | python/src/clashlens/api_dashboard.py:556-562 | a finished read is the machine's step, and its thread goes on to project this board exactly when it becomes the machine's projector |
| BoardProjector.DashboardBoard.Projected | python/src/clashlens/api_dashboard.py:563-572 | storing places is the machine's step, and the thread goes on exactly with a newest board that is another |
| Verification.AskedAtMostOnce | python/src/clashlens/api.py:1204-1290 | the game is asked at most once for each request id, whatever calls share it |
| Verification.AnswerWrittenOnce | python/src/clashlens/api_db.py:366-381 | a stored answer never changes |
| Verification.RepliesAgree | python/src/clashlens/api_db.py:232-335 | every call given a request's answer was given the stored one |
| Verification.RecoveredNeverLinks | python/src/clashlens/api_db.py:291-328 | a request closed as unavailable, also by recovery, never makes or renews a link afterwards |
| Verification.LinksWereVerified | python/src/clashlens/api_verification.py:200-323 | only a request whose token the game was asked about and confirmed makes or renews a link, and its answer says so |
| Verification.NotOvertaken | python/src/clashlens/api_db.py:338-363 | within its 45 s a call's own request cannot be completed by another |
| Verification.NeverMovesALink | python/src/clashlens/api_verification.py:238-299 | however verifications interleave, the account that holds a link keeps it until the player is unlinked or transferred |
| Verification.AttemptsStayBounded | python/src/clashlens/api_verification.py:146-198 | one account starts at most six new verifications in any minute |
| Verification.WaitingIsEnough | python/src/clashlens/api_verification.py:157-180 | waiting out retry_after_seconds leaves fewer than six attempts in the last minute, if none came between |
| Verification.StepKeepsInv | python/src/clashlens/api_verification.py:139-347 | every step of every call keeps rows, audits, calls, questions, links and attempts in agreement |
| VerificationAnswers.AnswersTellReplies | python/src/clashlens/api_verification.py:200-347 | over every run, a request is closed as a bad token exactly by the game's own such reply, linked, already linked or sent to support only after the game confirmed the token, closed as invalid only without asking, and unavailable when the game gave no answer |
| VerificationAnswers.FinishAnswers | python/src/clashlens/api_verification.py:200-323 | over every run, a call completes its request with what the game said and who holds the link, and links exactly a confirmed player whom nobody else holds; a call that lost its request changes nothing |
| VerificationAnswers.RecordedIsAnswered | python/src/clashlens/api_db.py:232-335 | over every run, a recorded request conflicts, replays, still runs or is closed as unavailable, by its binding, its answer and its 45 s |
| VerificationAnswers.NewIsReserved | python/src/clashlens/api_db.py:338-363 | a new request is reserved for 45 s with a pending audit and one attempt |
| VerificationAnswers.CountAnswers | python/src/clashlens/api_verification.py:151-180 | counting refuses exactly a new request of an account with six attempts in the last minute |
| VerificationWrites.VerificationTables.CountAttempts | python/src/clashlens/api_verification.py:157-169 | the count and the earliest time of the account's attempts of the last minute |
| VerificationWrites.VerificationTables.Refuse | python/src/clashlens/api_verification.py:151-180 | refused exactly when the request is new and six attempts were made, with the time to wait |
| VerificationWrites.VerificationTables.ReserveRequest | python/src/clashlens/api_db.py:232-335 | the writes are the machine's reservation: reserved, conflicting, replayed, still running or recovered |
| VerificationWrites.VerificationTables.ReserveVerification | python/src/clashlens/api_verification.py:139-198 | counting and then reserving are the machine's two steps |
| VerificationWrites.VerificationTables.CompleteVerification | python/src/clashlens/api_verification.py:200-323 | completes an active request by the machine's step, and changes nothing when the reservation was lost |
| VerificationWrites.VerificationTables.CompleteInvalid | python/src/clashlens/api_verification.py:326-347 | closes an active request as invalid, and changes nothing when the reservation was lost |
| Windows.EveryWindowIsBounded | python/src/clashlens/api_verification.py:146-198 | checking each entry against the span before it bounds every window of that length |
| Permits.LiveReadsTakeAtMostHalf | python/src/clashlens/api_live_clan.py:61-97 | live clan reads take at most half of collection's budget in any one second of any run |
| Permits.LanesKeepTheirBudgets | deploy/migrations/0026_python_collector_storage.sql:56-135 | each lane keeps its budget in every second, live reads counted as collection's |
| Permits.VerificationStartIsNeverTouched | python/src/clashlens/api_live_clan.py:61-67 | with the key active and verification's lane free, a verification start is granted whatever collection and live reads took |
| Permits.CountsMissNothing | deploy/migrations/0002_python_layer.sql:1409-1433 | deleted permits never miss from a count |
| Permits.CleanedExactly | deploy/migrations/0002_python_layer.sql:1409-1433 | cleaning deletes the rows of its batch, all older than ten minutes, and changes no later count |
| Permits.GrantedExactly | deploy/migrations/0026_python_collector_storage.sql:56-135 | over every run, a permit is granted exactly when the key is active and its lane's permits of the last second, of all ever granted, are below the lane's budget |
| Permits.LiveReadGrantedExactly | python/src/clashlens/api_live_clan.py:61-97 | over every run, a live read's start is granted exactly when one more stays within half of collection's budget, the key is active and collection's lane has room |
| Permits.PermitTable.AcquireLive | python/src/clashlens/api_live_clan.py:61-97 | a start is taken exactly when no reason is given, and the reasons are the key, the cap and the key's own refusal |
| Permits.PermitTable.Acquire | deploy/migrations/0026_python_collector_storage.sql:56-135 | a permit is added exactly when it is granted |
| Board.ReadBoard | python/src/clashlens/api_dashboard.py:272-337 | every player's ends are those of their last row, the sorted lists and the totals follow from them, the tallies agree with a plain scan over every range, and it raises exactly when a counted day has no trophies lost |
| Board.RowEndTells | python/src/clashlens/api_dashboard.py:268-304 | a player's ends: with a whole saved day its current trophies and 40 for each open attack and defense, otherwise the live trophies and eight of each |
| Board.TallyTells | python/src/clashlens/api_dashboard.py:317-324 | a day's tally: its defenses, those held, which are the ones not tripled, and the trophies lost |
| Board.MakeSimilar | python/src/clashlens/api_dashboard.py:235-243 | the totals before each start, over the starts ascending |
| Board.AddDay | python/src/clashlens/api_dashboard.py:317-324 | adding a day to the tallies by start adds it to the totals of exactly the ranges that hold it |
| RankRange.RankRange | python/src/clashlens/api_dashboard.py:678-689 | two binary searches count the players surely above and those that may reach; None exactly off the board |
| RankRange.PlaceInRange | python/src/clashlens/api_dashboard.py:678-689 | however the open battles finish and ties break, the final place lies within the range |
| RankRange.BestIsAttained | python/src/clashlens/api_dashboard.py:678-689 | some outcome attains the best rank |
| RankRange.WorstIsAttained | python/src/clashlens/api_dashboard.py:678-689 | some outcome attains the worst rank |
| RankRange.ProjectedRank | python/src/clashlens/api_dashboard.py:692-701 | the projected place stays inside the range and is kept where it already was; None exactly off the board or without one |
| RankRange.EndsBoundTheDay | python/src/clashlens/api_dashboard.py:268-304 | however the open battles of the day go, the final trophies lie within the ends, and the ends are all of them won and all of them lost |
| RankRange.EndsMeet | python/src/clashlens/api_dashboard.py:268-304 | once every attack and defense that was left is played, the ends meet at what they came to |
| RankRange.BattlesNeverWiden | python/src/clashlens/api_dashboard.py:305-320 | any further battle within 8 attacks and 8 defenses never widens anyone's range |
| RankRange.BattleNarrowsEnds | python/src/clashlens/api_dashboard.py:268-320 | a battle worth 0 to 40 narrows the player's ends exactly when a slot was open for it or it moved nothing |
| RankRange.BattleWidensExactly | python/src/clashlens/api_dashboard.py:268-320 | a battle can widen someone's range on some board exactly when no slot was open for it and it moved trophies |
| RankRange.NeverWidensExactly | python/src/clashlens/api_dashboard.py:678-689 | a change of one player's ends widens no range on any board exactly when it narrows those ends |
| RankRange.UnknownDayShifts | python/src/clashlens/api_dashboard.py:301-304 | without a saved day the ends narrow, and no range can widen, exactly when the trophies stayed |
| SimilarHeld.SimilarTotals | python/src/clashlens/api_dashboard.py:704-737 | the plain scan's totals within the least reach from 20 to 300 that holds 200 defenses, else within 300; None exactly when the trophies are unknown or fewer than 50 defenses lie there |
| SimilarHeld.Within | python/src/clashlens/api_dashboard.py:712-720 | two binary searches and three subtractions give the plain scan's totals |
| SimilarHeld.DifferenceIsScan | python/src/clashlens/api_dashboard.py:235-243 | the difference of two prefix sums is the scan between their splits |
| SimilarHeld.OneReach | python/src/clashlens/api_dashboard.py:721-731 | there is only one such reach |
| OfficialTies.FollowOfficialTies | python/src/clashlens/analytics.py:154-166 | the loop over runs, in place, gives the specified board |
| OfficialTies.OrderRun | python/src/clashlens/analytics.py:159-165 | one run in place: its placed entries, sorted, go back into the places they held |
| OfficialTies.FollowKeepsPlaces | python/src/clashlens/analytics.py:143-150 | a permutation that keeps the trophies at every place and every unplaced player in place |
| OfficialTies.FollowOrdersTies | python/src/clashlens/analytics.py:143-150 | placed players of a tie stand in the game's order |
| OfficialTies.TiesInGameOrder | python/src/clashlens/analytics.py:154-166 | of two placed players of a tie the one the game placed first stands first |
| OfficialTies.FollowIsIdempotent | python/src/clashlens/analytics.py:154-166 | following twice is following once |
| OfficialTies.OnlyFollow | python/src/clashlens/analytics.py:154-166 | for distinct players and placements no other board does this |
| TieOrder.LessIsStrict | python/src/clashlens/analytics.py:39-45 | of two players with different tags exactly one comes first |
| TieOrder.LessExactly | python/src/clashlens/analytics.py:39-45 | which of two players comes first, without fractions: trophies, any attack, the cross product of destruction and attacks, attacks, the tag's hash, the tag |
| TieOrder.BeforeExactly | python/src/clashlens/analytics.py:39-45 | one string is before another exactly when it is a proper prefix of it or smaller at the first difference |
| TieOrder.LessGoesOn | python/src/clashlens/analytics.py:39-45 | the order is transitive |
| TieOrder.BoardIgnoresInputOrder | python/src/clashlens/analytics.py:31-45 | the same rows in any order give the same board |
| TieOrder.SqlAgrees | python/src/clashlens/analytics.py:48-54 | the rounded order is the exact one wherever the product of the two attack counts is at most 10 to the kept decimals |
| TieOrder.SqlAgreesExactly | python/src/clashlens/analytics.py:39-54 | the two orders of two players differ exactly when different averages round alike and the terms below say the opposite |
| TieOrder.SqlCanDiffer | python/src/clashlens/analytics.py:48-54 | two counts of 200 million attacks whose averages round alike at 16 decimals, ordered one way by the key and the other by the database |
| TieOrder.FractionsApart | python/src/clashlens/analytics.py:44-51 | different averages differ by at least one over the product of the attack counts |
| LatestChanges.LatestChanges | python/src/clashlens/api_dashboard.py:348-383 | each player's latest change is the latest end of their newest log's battles that moved trophies, attack times taken from all newest logs in the order kept then read, and exactly the newest logs are kept |
| LatestChanges.KeptMattersExactly | python/src/clashlens/api_dashboard.py:369-374 | the attack times do not depend on which logs were kept exactly when no two newest logs end a battle's attack at different times |
| LatestChanges.KeptIsFresh | python/src/clashlens/api_dashboard.py:348-356 | where the newest logs agree, keeping reports gives the answer of reading everything afresh |
| LatestChanges.DisagreementMatters | python/src/clashlens/api_dashboard.py:375-382 | where two of them do not, the latest change of a player whom that battle's defense report moved differs with what was kept |
| LatestChanges.DisagreementIsPossible | python/src/clashlens/api_dashboard.py:369-382 | three players' logs with such a battle and two sets of kept logs with different latest changes |
| LatestChanges.LatestIsDecided | python/src/clashlens/api_dashboard.py:375-382 | there is only one latest change |
| LatestChanges.Gather | python/src/clashlens/api_dashboard.py:357-368 | kept logs and logs read in chunks together hold the newest logs' reports and no others, kept logs first |
| LatestChanges.ReadAll | python/src/clashlens/api_dashboard.py:360-367 | reading in chunks of 2,000 logs reads every log's reports in their order |
| LatestChanges.AllAttacks | python/src/clashlens/api_dashboard.py:369-374 | the dictionary over all the logs holds each battle's last attack time in the order gone through |
| LatestChanges.TimeIsLast | python/src/clashlens/api_dashboard.py:369-374 | a battle's attack time is that of the last log in the order with an attack on it, None exactly without one |
| LatestChanges.LastAttackExactly | python/src/clashlens/api_dashboard.py:369-374 | within a log it is the last of the battle's attack reports |
| LatestChanges.EndTells | python/src/clashlens/api_dashboard.py:375-382 | an attack ends at its own time; a defense at its battle's attack time, or 155 s after its own without one |
| LatestChanges.NewestEnd | python/src/clashlens/api_dashboard.py:375-382 | the latest end of a log's battles that moved trophies, None without one |
| ArmyDays.CacheReadsThrough | python/src/clashlens/api_dashboard.py:1009-1032 | over every sequence of requests, each for days less than 56 before the newest request's, every answer is what reading every asked day afresh would give |
| ArmyDays.WindowIsRecent | python/src/clashlens/api_dashboard.py:1009-1032 | the up to 28 days before a request's own are such days whenever no earlier request is 28 days ahead |
| ArmyDays.Cache.Totals | python/src/clashlens/api_dashboard.py:1009-1032 | one request: each asked day's totals for its marker, and no kept day later than the newest request's afterwards |
| ArmyDays.Cache.Evict | python/src/clashlens/api_dashboard.py:1027-1031 | what stays is unchanged, at most 112 days stay, and no day goes that is less than 56 days older than every other |
| ArmyDays.Cache.Fill | python/src/clashlens/api_dashboard.py:1015-1026 | exactly the asked days not kept with their marker are read and replaced, and kept days stay true to their markers |
| ArmyDays.FilledExactly | python/src/clashlens/api_dashboard.py:1015-1026 | after filling, each asked day has what was kept if it has the asked marker, and otherwise what was read |
| ArmyDays.AmongNewest | python/src/clashlens/api_dashboard.py:1027-1031 | a day less than 56 days older than every other is among the newest 112 of two lenses |
| GroupDifference.GroupConservesTrophies | python/src/clashlens/api_groups.py:334-355 | the members' averages weighted by their numbers of rivals sum to nothing, whoever else is listed |
| GroupDifference.GapIsAntisymmetric | python/src/clashlens/api_groups.py:349-354 | what one player gained on another, the other lost to them |
| GroupDifference.AddGroupDifference | python/src/clashlens/api_groups.py:334-355 | each player's average gap over the group members they share a counted day with; None exactly without one |
| GroupDifference.ComparedExactly | python/src/clashlens/api_groups.py:334-355 | a player is compared exactly when another player of the group shares a counted day with them |
| GroupDifference.CountedExactly | python/src/clashlens/api_groups.py:334-348 | a day counts exactly when it is complete or correcting and has a net, by its last such row |
| GroupDifference.SumGap | python/src/clashlens/api_groups.py:349-351 | the shared days may be summed in any order |

## Left out

- Discord, HTTP, FastAPI, HMAC, webhooks and the filesystem: a request is a step that succeeds, fails or is ambiguous; saving is one step.
- SQL text and planning: tables are maps and sets; a transaction is its steps between the row locks named in its file.
- Pictures of alerts, message wording, names and colours: a message is its nonce or its condition, state and times.
- Crew invites: whether an invite is still good is not read; names, descriptions and avatars of crews are not columns of the model.
- Operations other than verification that share the request table: their rows are not part of the model; another binding of an id is a conflict.
- Key cooldowns and quarantine: whether the key may be used is given to each permit request.
- `LiveClans.read`, `DashboardBoard.past_day`, `link_provider` and `unlink_provider`: single-flight or row-lock code of the same kind as what is modelled.
- `projected_place`, `army_types`, `reconciliation` and `domain` are not part of this model beyond 40 trophies a battle and 8 of each a day; the projected place and a day's totals are given.
- SummaryPacking.Pack: the settings link is added to the last box after packing, so its text is not part of the limit.
- GroupDifference.AddGroupDifference: does not round to one decimal, because conservation holds of the unrounded averages.
- TieOrder.SqlAgreesExactly: both quotients are rounded, halves away from zero, to one number of decimals given as a parameter; PostgreSQL chooses it for each quotient.
- TieOrder.SqlAgreesExactly: does not compare counts below zero, which the columns refuse.
- ArmyDays.Cache.Totals: promises no answer for a day 56 or more before the newest request's; a request asks for at most 28 days.
- LatestChanges.LatestChanges: requires the reports kept from before to be those saved, and one newest log for each player.
- SimilarHeld.SimilarTotals: requires that no day counts fewer than no defenses, which the saved counts never do.
