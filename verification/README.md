# OneShelf: a verified model of its stateful core

OneShelf is a self-hosted library application. Most of it is input and output; the parts below keep state under
rules that must hold over whole runs, and this project models and proves them in Dafny.

| part | files | what is modelled |
|---|---|---|
| Traffic governor | `GovernorState`, `GovernorSafety`, `GovernorProgress`, `GovernorTiming`, `GovernorLimits`, `Governor` | the scheduler over HTTP and browser slots |
| Catalog trust and unit corrections | `CatalogState`, `CatalogTrust`, `CatalogRuns`, `CatalogHistory`, `CatalogUnits`, `CatalogCorrections`, `CatalogValues`, `CatalogTracks`, `Catalog` | snapshots, their labels, and the reading units derived from them |
| Follow | `FollowState`, `FollowRuns`, `FollowEvidence`, `FollowMoves`, `FollowTracks` | new-release detection beside the catalog |
| Corrections of works | `WorkOverrides` | recording and taking back |
| Downloads | `DownloadContract`, `DownloadJobs`, `DownloadDecisions`, `DownloadCommits`, `Downloads`, `DownloadResume`, `HttpRanges`, `DownloadPages` | methods and retries, the job table, byte-range resume, page resume |
| Plugins | `PluginState`, `PluginRules`, `PluginOutcomes`, `Bundled`, `BundledAgain`, `BundledOutcomes`, `Plugins` | versions, permissions, the store, the startup sync |
| Track repair | `MergeState`, `MergeTrack`, `MergeRepair`, `Reclassify`, `Reclassifier` | plan, relabel and merge |
| Rate limiter, event bus | `RateLimit`, `EventBus` | the sliding window, the bounded queues |

Each part has the same shape. A `*State` file (or the first half of a single file) says what the tables hold and what
each operation does to them, as functions and step relations on values. The next files prove what every operation
keeps and what whole histories say, of the tables and not of those functions. The last holds the classes, whose methods update their fields statement by
statement as the original does; each method's postcondition equates the new state with those functions of the old.
Times are numbers that strictly increase where rows are ordered by them, or never go back where only windows matter.

## What is false of the code, and exactly when it holds

- Trusting the previous snapshot again leaves no current catalog (`CatalogTrust.TrustLeavesCurrentIff`).
- An empty trusted catalog marks nothing missing (`CatalogUnits.MirrorsAnswerIff`, `CatalogUnits.EmptyCatalogLeavesAvailable`).
- An undone unfollow forgets what it had reported (`FollowEvidence.UndoRestoresIff`, `FollowEvidence.ReportedTwice`).
- Following again on another track keeps old events, which hide equal keys (`FollowEvidence.RefollowMasksOldKeys`).
- A negative reserve lets HTTP use pass its capacity (`GovernorProgress.CapacityRespectedIff`).
- A pass outside the event loop can lose a wake-up (`GovernorProgress.PassWakes`, `GovernorProgress.WakeUpLostOutsideLoop`).
- An approval can lower the active version (`PluginRules.ApproveLowersIff`, `PluginRules.ApproveCanLower`), and a rollback
  enables a disabled plugin (`PluginRules.RollbackEnablesIff`).
- A manual retry queues any ended job again, so two live jobs can be after one file (`DownloadJobs.RetryRequeuesIff`,
  `Downloads.RetryKeepsExclusiveIff`, `Downloads.AlwaysExclusiveIff`).
- A cancel can be overtaken by a commit in its thread or left open in the journal (`DownloadJobs.OvertakenIff`,
  `DownloadJobs.JournalOutlivesCancel`).
- With several builds under one id a second sync can install what the first left alone (`BundledAgain.SyncTwiceIff`,
  `Bundled.TwoUnderOneId`).
- Taking a correction back can change a unit's type: when the unit is missing from the current catalog, when an answer
  with the same keys changed the type, and when an answer listed the key twice (`CatalogCorrections.CorrectThenClearIff`,
  `CatalogCorrections.SteadyCorrectThenClearIff`, `CatalogCorrections.ClearGivesOldType`,
  `CatalogCorrections.ClearGivesFirstType`).
- A track that two works follow cannot be merged away: the repair fails and changes nothing (`Reclassify.TrailMerged`,
  `Reclassify.SplitLeavesFollow`, `Reclassifier.Repair.Apply`).
- A merged track can have more snapshots of a kind than `refresh` ever leaves (`Reclassify.SnapsWithinIff`).
- The repair plan is empty afterwards unless a source declares `und` (`Reclassify.NothingLeftIff`).
- An empty source title, once corrected, is not restored (`WorkOverrides.ClearRestoresIff`).

## Model

| member | source | states |
|---|---|---|
| GovernorSafety.RunKeeps | backend/oneshelf/net/governor.py:138-215 | In every interleaving of wait, grant, cancel, resume, abort, release, promote, configure, Retry-After and timer steps, the HTTP, browser and per-source counters equal the live leases they count, background HTTP leases stay below capacity less the reserve, and every queued or granted call has exactly its own ticket |
| GovernorSafety.StepKeeps | backend/oneshelf/net/governor.py:138-215 | One step, whatever it is, keeps that invariant |
| GovernorSafety.DispatchKeeps | backend/oneshelf/net/governor.py:180-201 | One scheduling pass keeps it, whatever it grants and preempts |
| GovernorSafety.InitialInv | backend/oneshelf/net/governor.py:82-101 | A new governor satisfies it for every capacity of at least one |
| GovernorProgress.HttpWithinCapacity | backend/oneshelf/net/governor.py:167-171 | In every run HTTP use is at most capacity (plus the size of a negative reserve), browser use at most its capacity, and background HTTP leases at most capacity less the reserve |
| GovernorProgress.CapacityRespectedIff | backend/oneshelf/net/governor.py:89-93 | HTTP use never exceeds capacity in any run if and only if the configured reserve is not negative |
| GovernorProgress.PassWakes | backend/oneshelf/net/governor.py:180-201 | A pass leaves every waiting call sure to be looked at again if and only if it runs in an event loop, or finds a live lease, a waiter it can grant to, or nobody pending |
| GovernorProgress.RunNeverLosesWakeUp | backend/oneshelf/net/governor.py:229-239 | No run inside the event loop ever loses a wake-up: whoever waits has a live lease to wait for, or a timer no later than the moment its source is ready |
| GovernorProgress.WakeUpLostOutsideLoop | backend/oneshelf/net/governor.py:229-239 | A state in which configuring a source from outside the event loop cancels the timer of a paced request and nothing wakes it again |
| GovernorProgress.AbortLeaksNothing | backend/oneshelf/net/governor.py:145-153 | A call cancelled before or after its grant leaves no future, no waiter and no lease behind |
| GovernorProgress.IdleCountsZero | backend/oneshelf/net/governor.py:155-165 | With no live lease every counter is back at zero |
| GovernorTiming.PacingBound | backend/oneshelf/net/governor.py:108-112 | While a source stays configured for r requests a minute, any sixty-second window of any run contains at most r grants for it, at every priority |
| GovernorTiming.RetryAfterHonoured | backend/oneshelf/net/governor.py:114-117 | After a Retry-After of so many seconds no later grant for the source happens before they have passed |
| GovernorTiming.RetryAfterNeverShrinks | backend/oneshelf/net/governor.py:114-117 | The moment a source may be asked again never moves back in any run |
| GovernorTiming.GrantNarrowsGap | backend/oneshelf/net/governor.py:186-199 | While two sources both have grantable work at the best priority, one grant never widens the gap of their served counts past one or past where it was |
| GovernorTiming.FairBetweenSources | backend/oneshelf/net/governor.py:180-215 | Over whole runs that gap never grows past the greater of one and where it began |
| GovernorLimits.EveryGrantInTurn | backend/oneshelf/net/governor.py:180-199 | At every grant of every run the source has fewer live leases than its concurrency, the kind has room (less the reserve for background work), pacing and Retry-After are past, and nobody who could start comes before the one granted in priority, served count and arrival |
| GovernorLimits.NobodyOverlooked | backend/oneshelf/net/governor.py:180-201 | After every step of every run that looks at the queue, nobody waits who may start: his source or his kind is full, or his source is not yet due |
| GovernorLimits.TimerExactly | backend/oneshelf/net/governor.py:229-239 | A pass arms the timer only in an event loop, for a moment still to come at which a waiting call's source opens, and no later than that of any waiting call with room, for which it always arms one |
| GovernorLimits.SourceWithinConcurrency | backend/oneshelf/net/governor.py:173-178 | In every run the live leases on a source are at most the largest concurrency it was given, two at first |
| GovernorLimits.ConcurrencyIsLastGiven | backend/oneshelf/net/governor.py:108-110 | A source's concurrency is what it was last given, at least one, and two until then |
| GovernorLimits.ServedIsStarts | backend/oneshelf/net/governor.py:205-208 | A source's served count is the number of starts on it in the run so far |
| GovernorLimits.IntervalIsRate | backend/oneshelf/net/governor.py:111-111 | The interval times the rate is a minute; without a rate there is no interval |
| GovernorLimits.DelayedExactly | backend/oneshelf/net/governor.py:114-116 | A Retry-After makes its source wait exactly that long from now, or as long as it already had to |
| GovernorLimits.PromoteRaises | backend/oneshelf/net/governor.py:129-135 | A promotion changes just the priority of the task's waiters and of what it will ask for, to the more urgent of the two |
| GovernorLimits.PromotionLasts | backend/oneshelf/net/governor.py:129-141 | Once a task is promoted, no later state of the run has a call of it waiting with a lower priority |
| GovernorLimits.WaitQueues | backend/oneshelf/net/governor.py:138-144 | A new call queues last and undecided, with the priority it asks for or the more urgent one its task was promoted to |
| GovernorLimits.QuietSteps | backend/oneshelf/net/governor.py:145-148 | Cancelling a task decides its pending future, and resuming forgets it; neither touches the queue, a lease or the timer |
| GovernorLimits.CancelledNeverGranted | backend/oneshelf/net/governor.py:145-153 | A call cancelled before its grant never holds a lease in any later state |
| GovernorLimits.PreemptsForPressing | backend/oneshelf/net/governor.py:217-227 | A pass preempts background browser leases alone and only while the browser is full, one for each foreground browser call whose source has a lease to spare, the least important first, and cancels exactly their tasks |
| Governor.TrafficGovernor.Grant | backend/oneshelf/net/governor.py:203-215 | The waiter leaves the queue, its source and kind counters go up by one, its source's next start moves, and the ticket holds a live lease |
| Governor.TrafficGovernor.Scan | backend/oneshelf/net/governor.py:186-200 | One scan removes decided waiters and finds the waiter whose turn it is (least priority, then served, then arrival) or, if none, the earliest ready time of the paced ones |
| Governor.TrafficGovernor.Consider | backend/oneshelf/net/governor.py:187-199 | What one waiter contributes to the scan |
| Governor.TrafficGovernor.RunPass | backend/oneshelf/net/governor.py:184-199 | The granting loop ends, each of its grants going to the waiter whose turn it is at that moment, and leaves nobody grantable |
| Governor.TrafficGovernor.PreemptBackgroundBrowser | backend/oneshelf/net/governor.py:217-227 | Only background browser leases are preempted, only for urgent browser work that finds the browser full, one for each, least important first |
| Governor.TrafficGovernor.LeastImportant | backend/oneshelf/net/governor.py:222-224 | The victim chosen has the largest priority number |
| Governor.TrafficGovernor.Schedule | backend/oneshelf/net/governor.py:229-239 | The old timer goes; a new one is armed exactly when somebody is paced and an event loop runs |
| Governor.TrafficGovernor.Dispatch | backend/oneshelf/net/governor.py:180-201 | The whole pass refines the specification of one scheduling step |
| Governor.TrafficGovernor.Wait | backend/oneshelf/net/governor.py:138-144 | Queues a waiter with the promoted priority of its task and runs a pass |
| Governor.TrafficGovernor.CancelTask | backend/oneshelf/net/governor.py:145-146 | Decides the pending future of the cancelled task |
| Governor.TrafficGovernor.Resume | backend/oneshelf/net/governor.py:146-146 | A granted call returns its lease and is no longer suspended |
| Governor.TrafficGovernor.Abort | backend/oneshelf/net/governor.py:147-153 | A cancelled call withdraws its waiter or gives back the slot it was granted, and runs a pass |
| Governor.TrafficGovernor.Release | backend/oneshelf/net/governor.py:155-165 | A lease is given back once; the second time changes nothing |
| Governor.TrafficGovernor.SetRetryAfter | backend/oneshelf/net/governor.py:114-117 | Extends the source's waiting time and runs a pass |
| Governor.TrafficGovernor.ConfigureSource | backend/oneshelf/net/governor.py:108-112 | Sets concurrency of at least one and the interval, and runs a pass |
| Governor.TrafficGovernor.Promote | backend/oneshelf/net/governor.py:129-136 | Raises a task's priority now and for calls it has not made yet, and runs a pass |
| Governor.TrafficGovernor.TimerFires | backend/oneshelf/net/governor.py:239-239 | The timer runs a pass |
| Governor.TrafficGovernor.Create | backend/oneshelf/net/governor.py:82-101 | Refuses a capacity below one |
| CatalogTrust.PruneKeeps | backend/oneshelf/catalog/trust.py:160-167 | Pruning leaves at most as many rows as asked, always including the newest |
| CatalogTrust.PruneExactly | backend/oneshelf/catalog/trust.py:160-167 | Pruning leaves exactly as many rows as asked, if there are so many |
| CatalogTrust.PruneKeepsNewer | backend/oneshelf/catalog/trust.py:160-167 | Each row pruning leaves is newer than each it deletes |
| CatalogTrust.PromotedRows | backend/oneshelf/catalog/trust.py:172-180 | What a promotion leaves: the snapshot as the one current row (unless it was the previous one, which is deleted), the old current as previous, no candidate |
| CatalogTrust.RefreshSound | backend/oneshelf/catalog/trust.py:81-117 | Every refresh keeps at most one current, one previous, two suspicious and three incomplete snapshots, and no incomplete one is ever labelled |
| CatalogTrust.TrustChosenSound | backend/oneshelf/catalog/trust.py:119-134 | So does trusting a snapshot explicitly |
| CatalogTrust.TrustLeavesCurrentIff | backend/oneshelf/catalog/trust.py:172-181 | After trust_catalog the track has a current catalog if and only if the chosen snapshot was not the previous one |
| CatalogTrust.IncompleteChangesNothingTrusted | backend/oneshelf/catalog/trust.py:86-89 | An incomplete answer changes no labelled snapshot and no reading unit |
| CatalogRuns.MaterializedIds | backend/oneshelf/catalog/trust.py:183-204 | Materializing deletes no unit, gives ids only to new ones, and leaves every correction standing |
| CatalogRuns.EditFrame | backend/oneshelf/library/overrides.py:116-142 | Correcting one unit changes no other unit and no correction of another |
| CatalogRuns.AlwaysGood | backend/oneshelf/catalog/trust.py:81-204 | In every history of refreshes, explicit trust, corrections and operations on other tracks the table bounds hold, ids are never reused, and every corrected column still holds the correction |
| CatalogTracks.EachHasItsHistory | backend/oneshelf/catalog/trust.py:81-204 | However operations on many tracks interleave, each track is as after a history of its own in which the others are steps elsewhere, so all that holds over every history holds of every track; and no two tracks share a unit |
| CatalogTracks.DoRecords | backend/oneshelf/library/overrides.py:116-142 | Only a correction changes what is recorded, and only for a unit of its own track |
| CatalogHistory.CandidateIsDoubt | backend/oneshelf/catalog/trust.py:107-114 | In every history the candidate row is exactly the key set of the last complete check if that check was suspicious, and there is none otherwise |
| CatalogHistory.VerdictOnLoss | backend/oneshelf/catalog/trust.py:99-117 | When a complete answer is called suspicious or recovered, in terms of what it loses and of the candidate |
| CatalogHistory.RecoveredIff | backend/oneshelf/catalog/trust.py:107-114 | A refresh answers recovered if and only if it loses too much and the immediately preceding complete check was suspicious with the same key set |
| CatalogHistory.LosesTooMuchIff | backend/oneshelf/catalog/trust.py:153-158 | An answer loses too much if and only if at least five keys of the current catalog, and at least half of them, are gone, in every history |
| CatalogHistory.TrustedFromCompleteChecks | backend/oneshelf/catalog/trust.py:81-117 | Every complete snapshot, so every catalog ever trusted, is the key set of some complete answer in the history |
| CatalogHistory.RefreshCounts | backend/oneshelf/catalog/trust.py:81-117 | What a check tells, in every history: the number of units listed and of the current catalog, how many of those it misses, and the row it stored; it is unchanged just if it lists the current keys again, and then names the current row |
| CatalogHistory.RefreshRemembers | backend/oneshelf/catalog/trust.py:81-117 | After an incomplete answer just the three newest incomplete rows are there, its own included, and after a suspicious one just the two newest candidates |
| CatalogHistory.TrustCounts | backend/oneshelf/catalog/trust.py:119-134 | Explicit trust is refused just for a row that is not there or not complete, and else answers with that row and its number of units |
| CatalogUnits.MirrorsAnswerIff | backend/oneshelf/catalog/trust.py:183-202 | After materializing, exactly the listed keys are available if and only if the answer is not empty or nothing was available before |
| CatalogUnits.UnitsTellHistory | backend/oneshelf/catalog/trust.py:183-202 | Over any history of non-empty trusted catalogs: units are the keys ever trusted, availability follows the latest catalog, missing_since is the first catalog without the unit since it was last there, first_seen the first with it |
| CatalogUnits.CurrentAlwaysShown | backend/oneshelf/catalog/trust.py:172-204 | The current trusted catalog is always the one last written to the reading units, as long as no previous snapshot was trusted again |
| CatalogUnits.UnitsMirrorTrust | backend/oneshelf/catalog/trust.py:183-204 | A unit is available if and only if its key is in the current trusted catalog |
| CatalogUnits.EmptyAnswerLeavesAvailable | backend/oneshelf/catalog/trust.py:198-202 | An empty complete answer over a small catalog becomes the trusted catalog and leaves every unit available |
| CatalogUnits.EmptyCatalogLeavesAvailable | backend/oneshelf/catalog/trust.py:198-202 | A concrete history that ends so |
| CatalogValues.EditRecordsAndShows | backend/oneshelf/library/overrides.py:116-142 | Of one correction: a value put is recorded and shown, a cleared field loses its row and shows what the source gives, a field not mentioned keeps row and column, and nothing else of the unit changes |
| CatalogValues.UnitsShowStory | backend/oneshelf/catalog/trust.py:183-204 | In every history a unit exists just if a catalog written to the units listed it; title, number, type and last_seen are those of the last such listing under the user's last words, and the override rows are exactly those words |
| CatalogValues.CorrectionLasts | backend/oneshelf/library/overrides.py:128-156 | After a value is put in a field of a unit, whatever the source answers and whatever else is trusted or corrected, row and column hold it until that field of that unit is corrected again |
| CatalogValues.UpsertedWrites | backend/oneshelf/catalog/trust.py:183-197 | A refresh writes title, type and number of the last listed row of each key, and touches no other unit, no id and no number of the user's |
| CatalogCorrections.AlwaysFromSource | backend/oneshelf/library/overrides.py:131-134 | In every history a unit without a title correction shows its source's title, and one without a number correction has no user number |
| CatalogCorrections.ClearGivesBack | backend/oneshelf/library/overrides.py:131-142 | Taking all corrections of a unit back leaves no override row, no user number, the source's title, and the type stored with the current trusted catalog |
| CatalogCorrections.CorrectThenClearIff | backend/oneshelf/library/overrides.py:116-142 | In every history, correcting an uncorrected unit and taking it back changes nothing at all if and only if the unit's type is the one stored with the current catalog (unknown if none is) |
| CatalogCorrections.TypesAlwaysStored | backend/oneshelf/catalog/trust.py:99-104 | In every history whose answers say one type for each key, and repeat the stored types when they repeat the keys, each uncorrected unit of the current catalog has the type stored there |
| CatalogCorrections.SteadyCorrectThenClearIff | backend/oneshelf/library/overrides.py:135-141 | So in such a history taking a correction back changes nothing if and only if the current catalog lists the unit or its type is unknown already: a missing unit loses its type |
| CatalogCorrections.UnchangedKeepsStored | backend/oneshelf/catalog/trust.py:99-104 | An answer with the keys of the current catalog tells the units its types and leaves the stored ones |
| CatalogCorrections.ClearGivesOldType | backend/oneshelf/library/overrides.py:135-141 | A concrete history after which taking a correction back gives a unit the type its source has given up |
| CatalogCorrections.ClearGivesFirstType | backend/oneshelf/catalog/trust.py:146-150 | So does a single answer that lists a key twice with two types: the unit has the last, the stored row the first |
| Catalog.Service.Newest | backend/oneshelf/catalog/trust.py:55-58 | Finds the row with the latest fetched_at |
| Catalog.Service.Snapshot | backend/oneshelf/catalog/trust.py:55-58 | The latest row with a label, if any |
| Catalog.Service.TrustedCatalog | backend/oneshelf/catalog/trust.py:69-71 | The keys of the current trusted catalog |
| Catalog.Service.SuspiciousCandidate | backend/oneshelf/catalog/trust.py:76-77 | Whether there is a candidate |
| Catalog.Service.Rows | backend/oneshelf/catalog/trust.py:162-164 | All rows of a kind, newest first |
| Catalog.Service.Prune | backend/oneshelf/catalog/trust.py:160-167 | Deletes exactly the rows with at least `keep` newer ones |
| Catalog.Service.ClearCandidates | backend/oneshelf/catalog/trust.py:169-170 | Deletes every suspicious row |
| Catalog.Service.Promote | backend/oneshelf/catalog/trust.py:172-180 | Statement by statement the promotion of the specification |
| Catalog.Service.Materialize | backend/oneshelf/catalog/trust.py:183-204 | Unit by unit the materialization of the specification |
| Catalog.Service.Refresh | backend/oneshelf/catalog/trust.py:81-117 | The answer and new tables of one refresh; other tracks are untouched |
| Catalog.Service.Judge | backend/oneshelf/catalog/trust.py:91-117 | The branches of a refresh after its row is written |
| Catalog.Service.Again | backend/oneshelf/catalog/trust.py:99-105 | The unchanged branch: the new row goes, the current row gets the new time |
| Catalog.Service.TrustCatalog | backend/oneshelf/catalog/trust.py:119-134 | Refused for an unknown or incomplete snapshot, else promoted and materialized |
| Catalog.Service.ApplyOverrides | backend/oneshelf/library/overrides.py:145-156 | Writing the corrections one by one gives the fully corrected units |
| Catalog.Service.SetUnit | backend/oneshelf/library/overrides.py:116-142 | Records the corrections and lets the columns follow |
| FollowRuns.AlwaysTidy | backend/oneshelf/follow/service.py:126-198 | In every history: one follow for each work and language, one event for each key of a follow, at most a hundred undos |
| FollowRuns.ReportedExactly | backend/oneshelf/follow/service.py:217-256 | For a follow neither ended nor re-pointed, over any catalog operations and checks: no key twice, none of the baseline, and exactly the union of the trusted catalogs seen by successful checks less the baseline; a pending baseline becomes the first catalog seen, silently |
| FollowRuns.CheckReportsIff | backend/oneshelf/follow/service.py:223-256 | The next check reports a unit if and only if the trusted catalog has it, there is a baseline without it, there is no candidate, and no earlier successful check saw it |
| FollowRuns.NewsExactly | backend/oneshelf/follow/service.py:236-238 | The set one check reports, for any follow row and any catalog |
| FollowEvidence.ReportsHaveEvidence | backend/oneshelf/follow/service.py:223-238 | Behind every reported key: some complete answer listed exactly the catalog now trusted, the last complete check is not in doubt, and the key has a reading unit (an available one unless an empty or previous catalog was trusted) |
| FollowEvidence.CurrentHasUnits | backend/oneshelf/catalog/trust.py:183-204 | Every unit of the current trusted catalog has a reading unit, in every history |
| CatalogHistory.RowsDistinct | backend/oneshelf/catalog/trust.py:146-150 | No snapshot lists a key twice, in every history |
| FollowEvidence.NewsAreDistinct | backend/oneshelf/follow/service.py:238-252 | One answer names each new release once |
| FollowEvidence.IncompleteInvisible | backend/oneshelf/catalog/trust.py:86-89 | An incomplete answer changes nothing that a follow can see |
| FollowEvidence.SuspectedSilences | backend/oneshelf/follow/service.py:223-225 | After a suspicious answer a check reports nothing and changes neither baseline nor events |
| FollowEvidence.UndoRestoresIff | backend/oneshelf/follow/service.py:144-182 | Undoing an unfollow at once always succeeds, restores the tables if and only if there were no release events and no error, and costs the oldest undo when there were a hundred |
| FollowEvidence.UndoReportsAgain | backend/oneshelf/follow/service.py:162-182 | After the undo the next check also reports every earlier release still in the catalog and not in the baseline |
| FollowEvidence.ReportedTwice | backend/oneshelf/follow/service.py:162-182 | A follow whose release is reported again after the undo |
| FollowEvidence.UndoWorksIff | backend/oneshelf/follow/service.py:162-172 | A token is spent by its use, and works if and only if it is kept and nobody follows that work and language again |
| FollowEvidence.RefollowMasksOldKeys | backend/oneshelf/follow/service.py:126-142 | Re-pointing by following again reports what changing the preferred source reports, less every key reported on the old track |
| FollowEvidence.NewBaselineSilent | backend/oneshelf/follow/service.py:99-113 | A follow just made or re-pointed reports nothing of the catalog its track already has |
| FollowMoves.MoveMovesExactly | backend/oneshelf/follow/service.py:184-198 | Changing the source is refused just if nobody follows or the track is not on offer; else exactly that row gets the source and the track, the track's catalog as baseline and no events, and its next check, of the track now stored in it, reports nothing |
| FollowMoves.FollowPointsExactly | backend/oneshelf/follow/service.py:126-142 | Following is refused just if the track is not on offer; else exactly one row is made, pointed at the source and track, or left because it is there already |
| FollowMoves.FollowedSilent | backend/oneshelf/follow/service.py:126-142 | The next check of a row made or pointed by following, of the track now stored in it, reports nothing |
| FollowMoves.StaysOnTarget | backend/oneshelf/follow/service.py:217-228 | A follow that nobody ends or points elsewhere keeps source and track in every history, and its checks look at that track |
| FollowMoves.MovedReportsNewer | backend/oneshelf/follow/service.py:184-256 | Over every history after a move, the events are exactly the keys that successful checks saw on the new track, less the catalog it showed at the move |
| FollowMoves.CheckAnswersExactly | backend/oneshelf/follow/service.py:217-256 | Each answer of a check has its exact condition on what the catalog shows, and leaves its time, success and category on the row |
| FollowMoves.NewsPointAtUnits | backend/oneshelf/follow/service.py:243-252 | Every release named points at the reading unit of its key, with that unit's title and number |
| FollowMoves.CheckKeepsEvents | backend/oneshelf/follow/service.py:242-249 | A check keeps the events there are and adds unseen ones dated now, each of the unit of its key |
| FollowMoves.SeenOnce | backend/oneshelf/follow/service.py:290-297 | Marking changes the marks alone, answers zero just if nothing was unseen, and leaves nothing to count again |
| FollowMoves.UndoBringsBack | backend/oneshelf/follow/service.py:144-182 | Unfollowing takes exactly that row and keeps it last; undoing at once brings it back but for events and error |
| FollowMoves.NobodyFollows | backend/oneshelf/follow/service.py:71-75 | Where nobody follows the work, or not in that language, every operation on it says so and changes nothing |
| FollowTracks.FollowService.RowOf | backend/oneshelf/follow/service.py:71-75 | The earliest follow of a work, or the one in a language |
| FollowTracks.FollowService.SetBaseline | backend/oneshelf/follow/service.py:99-113 | The trusted catalog becomes the baseline; without one it is pending |
| FollowTracks.FollowService.FollowTrack | backend/oneshelf/follow/service.py:126-142 | The receipt and tables after following |
| FollowTracks.FollowService.Insert | backend/oneshelf/follow/service.py:134-140 | A new follow row with its baseline |
| FollowTracks.FollowService.Unfollow | backend/oneshelf/follow/service.py:144-160 | The follow goes with baseline and events; the undo is kept |
| FollowTracks.FollowService.ForgetOldest | backend/oneshelf/follow/service.py:151-152 | Only the hundred latest undos stay |
| FollowTracks.FollowService.UndoUnfollow | backend/oneshelf/follow/service.py:162-182 | The receipt and tables after an undo, refused or not |
| FollowTracks.FollowService.ChangePreferredSource | backend/oneshelf/follow/service.py:184-198 | Moves the follow, drops its events and sets a new baseline |
| FollowTracks.FollowService.RecordAttempt | backend/oneshelf/follow/service.py:202-215 | The attempt's time, success or category |
| FollowTracks.FollowService.Check | backend/oneshelf/follow/service.py:217-256 | The answer and tables after a check |
| FollowTracks.FollowService.Finish | backend/oneshelf/follow/service.py:224-253 | Recording by work and language finds the row that was checked |
| FollowTracks.FollowService.Report | backend/oneshelf/follow/service.py:242-249 | One event for each new key, none twice |
| FollowTracks.FollowService.MarkReleasesSeen | backend/oneshelf/follow/service.py:290-297 | All events of the follow are seen; the answer counts those that were not |
| WorkOverrides.ClearRestoresIff | backend/oneshelf/library/overrides.py:69-110 | After any corrections of an uncorrected work, taking everything back restores it exactly if and only if its title was not empty or was never corrected, and always leaves no override row |
| WorkOverrides.AlwaysRemembers | backend/oneshelf/library/overrides.py:81-110 | While corrections stand, the override rows still hold what the source said |
| WorkOverrides.LastWordsShown | backend/oneshelf/library/overrides.py:69-110 | After any corrections of an uncorrected work it shows what the user last said of type and title and did not take back, else what its source gave, and exactly those words are recorded |
| WorkOverrides.WorkRow.SetKind | backend/oneshelf/library/overrides.py:81-96 | The type part of a correction |
| WorkOverrides.WorkRow.SetTitle | backend/oneshelf/library/overrides.py:97-110 | The title part of a correction |
| WorkOverrides.WorkRow.SetWork | backend/oneshelf/library/overrides.py:42-110 | Refused for an unknown type and for a title that is blank or, without the blanks around it, longer than 500 characters; else both parts, the title without those blanks |
| DownloadContract.Settings.Set | backend/oneshelf/downloads/contract.py:88-103 | Stores a setting if and only if its scope and value are allowed; the stored settings stay valid |
| DownloadContract.Settings.Delete | backend/oneshelf/downloads/contract.py:110-113 | Removes one setting |
| DownloadContract.ResolvedIsUsable | backend/oneshelf/downloads/contract.py:116-135 | With any valid settings only a one-time choice or the plugin's advice can be refused, and the contract built from the result is well made |
| DownloadContract.StrongestDecides | backend/oneshelf/downloads/contract.py:116-128 | The origin is exact: one-time, then the source's setting, then the global one, then the plugin |
| DownloadContract.EmptyOrderFallsThrough | backend/oneshelf/downloads/contract.py:133-134 | A source's own empty fallback order has no effect: the global one applies |
| DownloadDecisions.ResolvedExactly | backend/oneshelf/downloads/contract.py:116-135 | Where the method, the mode and the fallback order each come from (one-time choice, the source's setting, the global one, advice, default), and when there is no known method |
| DownloadContract.NextMethod | backend/oneshelf/downloads/contract.py:142-159 | The loop over the fallback order takes the first method not tried |
| DownloadContract.FallsBackIff | backend/oneshelf/downloads/contract.py:142-159 | The method changes without asking if and only if the mode is automatic, the failure is of the method, the retries are used up and some listed method is untried |
| DownloadContract.FallbackKeepsPromise | backend/oneshelf/downloads/contract.py:52-54 | The new method is a listed, untried one and nothing else of the contract changes |
| DownloadDecisions.DecisionsExactly | backend/oneshelf/downloads/contract.py:142-159 | The exact condition of each decision: a session wait, a rate-limit wait, a retry, a question, giving up, and the switch to the first untried method of the order |
| DownloadDecisions.FailureGoesExactly | backend/oneshelf/downloads/engine.py:792-825 | The state a failure takes a job to, each with its exact condition on category, attempts, mode and order |
| DownloadDecisions.FailureLeavesExactly | backend/oneshelf/downloads/engine.py:792-825 | A failure frees the worker, records its category, takes no commit back, and starts the count again unless the job retries or has failed |
| DownloadDecisions.FailureKeepsOrSwitches | backend/oneshelf/downloads/engine.py:809-814 | It drops what was kept just if it switches, to the first method left; else contract and kept data stay |
| DownloadDecisions.FailureAsksExactly | backend/oneshelf/downloads/engine.py:815-818 | It offers the whole fallback order just if the mode asks first and another method could help |
| DownloadDecisions.FailedOnlyWhenSpent | backend/oneshelf/downloads/engine.py:792-825 | In every run, with any crashes, waits, cancels and manual retries: a failed job failed on an error that repeating cannot fix, or after max(1, budget) starts with its present method; and it waits to retry only with attempts left |
| DownloadDecisions.CancelLeavesCanceled | backend/oneshelf/downloads/engine.py:379-388 | Cancelling leaves every job canceled but a completed one, and tells a live worker to stop |
| DownloadDecisions.CrashThenRecover | backend/oneshelf/downloads/engine.py:328-344 | In every run, a job being worked on when the process dies can start again after the recovery, or has failed because it started more often than the budget allows; any other keeps its state |
| DownloadCommits.CommitsAlwaysAccounted | backend/oneshelf/storage/commit.py:99-260 | In every run each commit handed over is refused, journaled, lost with the process or still in its thread, and each journal row is registered, given up or still open: a download is never registered more often than committed |
| DownloadCommits.LooseCanBeGivenUp | backend/oneshelf/storage/commit.py:138-168 | Whether a loose commit completes its job is open: all can also be refused or given up, and then nothing else of the job has changed |
| DownloadCommits.RegisterCompletes | backend/oneshelf/downloads/engine.py:76-93 | A registration completes the job, whatever its state, and clears its error |
| DownloadCommits.StepKept | backend/oneshelf/downloads/engine.py:792-825 | The pages and the file kept of a download change by the worker's word, by a switch of method and, the file, by a manual retry, and by nothing else |
| DownloadCommits.EndedWorkerStops | backend/oneshelf/downloads/engine.py:379-388 | In every run a worker whose job has ended can stop |
| DownloadJobs.PromiseKept | backend/oneshelf/downloads/contract.py:52-54 | In every run, manual retries and crashes included, source, language, unit, output, file format, mode and order stay, and the list of tried methods only grows |
| DownloadJobs.RetriesEnd | backend/oneshelf/downloads/engine.py:792-825 | Without waits or manual retries: at most max(1, budget) starts with each method, one more if the process may crash, no method twice, at most four times as many in all |
| DownloadJobs.StartsAccounted | backend/oneshelf/downloads/engine.py:792-815 | The exact account behind it: starts with the current method equal its attempts |
| DownloadJobs.RestIsFinal | backend/oneshelf/downloads/engine.py:328-344 | While the process lives, a job neither worked on nor runnable is completed, failed or canceled |
| DownloadJobs.WaitsNeverEnd | backend/oneshelf/downloads/engine.py:801-809 | With rate-limit waits a job can start any number of times |
| DownloadJobs.CanceledStays | backend/oneshelf/downloads/engine.py:348-361 | A canceled job stays canceled with its contract through everything but a manual retry, unless a commit was already handed to its thread or open in the journal |
| DownloadJobs.OvertakenIff | backend/oneshelf/downloads/engine.py:76-93 | A canceled job can still be completed without a manual retry if and only if a commit of it is in a thread or open in the journal |
| DownloadJobs.JournalOutlivesCancel | backend/oneshelf/storage/commit.py:214-260 | For every contract and kind of failure a run in which a commit is interrupted, the job fails or waits, the owner cancels it, and the replay at the next startup completes it |
| DownloadJobs.CanceledIsDropped | backend/oneshelf/downloads/engine.py:379-388 | In every run, crashes and retries included, the worker of a canceled job has been told to stop |
| DownloadJobs.RetryRequeuesIff | backend/oneshelf/downloads/engine.py:406-421 | A manual retry queues a job of any state if and only if no worker is on it and the method is a known one |
| DownloadJobs.KeptIsOwn | backend/oneshelf/downloads/engine.py:810-815 | In every run without a manual change of method, whatever a job keeps of earlier attempts comes from starts with its present method |
| DownloadJobs.SwitchKeepsPages | backend/oneshelf/downloads/engine.py:412-421 | A manual retry with another method hands it the pages of the last one |
| Downloads.QueueAdds | backend/oneshelf/downloads/engine.py:172-246 | Enqueuing keeps every existing job and adds only jobs asked for that the library has no copy of |
| Downloads.OwnedExactly | backend/oneshelf/downloads/engine.py:148-161 | Without a format any copy of the unit will do; with one, only the copy in that format |
| Downloads.QueueKeepsExclusive | backend/oneshelf/downloads/engine.py:163-202 | No second live job for a file that one is after; afterwards everything asked for is owned or being fetched |
| Downloads.RetryKeepsExclusiveIff | backend/oneshelf/downloads/engine.py:406-421 | Retrying an ended job keeps that if and only if no other live job is after its file |
| Downloads.StepKeepsExclusiveIff | backend/oneshelf/downloads/engine.py:163-170 | One step of one job keeps live jobs apart if and only if it does not bring an ended job back while another live job is after its file |
| Downloads.OnlyTheseRevive | backend/oneshelf/downloads/engine.py:792-825 | Only a manual retry brings an ended job back, or a failure of its worker after its file was registered |
| Downloads.AlwaysExclusiveIff | backend/oneshelf/downloads/engine.py:163-202 | Over every run of requests, workers, failures, crashes, cancels and retries no two live jobs are ever after one file if and only if no step brings a job back while another is after its file |
| Downloads.ChooseFile | backend/oneshelf/downloads/engine.py:828-842 | Refused if and only if the chosen format is not offered; without a choice the first keepable format in order of preference |
| Downloads.Engine.Enqueue | backend/oneshelf/downloads/engine.py:172-246 | All of a request is queued or none of it |
| Downloads.Engine.Begin | backend/oneshelf/downloads/engine.py:513-519 | Counts the attempt and marks the job as worked on |
| Downloads.Engine.HandleFailure | backend/oneshelf/downloads/engine.py:792-825 | The row after a failure, by the decision taken; a commit in its thread or the journal stays |
| Downloads.Engine.CancelJob | backend/oneshelf/downloads/engine.py:379-397 | Cancels unless it is canceled or completed |
| Downloads.Engine.RetryJob | backend/oneshelf/downloads/engine.py:406-421 | Refused for an unknown job, a live worker or an unknown method |
| Downloads.Engine.FailExhausted | backend/oneshelf/downloads/engine.py:330-337 | Jobs interrupted too often fail |
| Downloads.Engine.RecoverAll | backend/oneshelf/downloads/engine.py:328-344 | Every row after a restart: failed or recovering, and then as the replay of its open commits leaves it |
| DownloadResume.AnsweredVersion | backend/oneshelf/net/http.py:205-222 | What one answered request leaves in the file is a beginning of the version served, and all of it if the answer ended well |
| DownloadResume.AttemptKeeps | backend/oneshelf/downloads/engine.py:676-704 | One attempt keeps the file a beginning of one version, and verifies only a whole body served during it |
| DownloadResume.NeverSpliced | backend/oneshelf/downloads/engine.py:676-704 | Over any interruptions, retries, lost files and changes at the source the staged file is a beginning of exactly one version, and a verified one is one version's whole body |
| DownloadResume.RestartLeavesOlderValidator | backend/oneshelf/downloads/engine.py:691-693 | A run that ends with a newer version's bytes beside an older version's validator |
| DownloadResume.ReturningTagSplices | backend/oneshelf/net/http.py:206-208 | If a validator did come back after changing, the next resume from there would verify a splice |
| DownloadResume.RestCompletes | backend/oneshelf/net/http.py:201-222 | A file that is the beginning of the version still served is completed by one answer with the rest, its Content-Range read as the server wrote it, however the rest is cut into chunks |
| DownloadResume.AnsweredExactly | backend/oneshelf/net/http.py:197-222 | A request for the rest is made again for everything just if a partial answer is not the continuation or the range cannot be had; only a full answer and the continuation write; and what ends well says its status, validator, length and whether it went on |
| DownloadResume.AskedExactly | backend/oneshelf/downloads/engine.py:676-690 | The rest is asked for just if some but not all of the expected length is there and the version is known |
| DownloadResume.FileDownload.Write | backend/oneshelf/net/http.py:211-219 | Chunk by chunk, up to the first that makes the body too large |
| DownloadResume.FileDownload.Stream | backend/oneshelf/net/http.py:177-223 | The file and answer after at most two requests |
| DownloadResume.FileDownload.Download | backend/oneshelf/downloads/engine.py:676-704 | The staged file, manifest and outcome of an attempt cut anywhere |
| HttpRanges.ContentRangeRoundTrip | backend/oneshelf/net/http.py:247-260 | What a server writes in Content-Range is read back exactly: where the part starts and, if known, the whole length |
| HttpRanges.ContentLengthRoundTrip | backend/oneshelf/net/http.py:254-260 | A Content-Length is read back on top of the offset |
| HttpRanges.DigitsExactly | backend/oneshelf/net/http.py:247-252 | Digits with single underscores between them, and nothing else, are read as a number, and as the very number they write |
| HttpRanges.IntExactly | backend/oneshelf/net/http.py:247-252 | With blanks around it and one sign in front a number is read as it is written, negative just after a minus; any other text is no number |
| DownloadPages.RunIsExact | backend/oneshelf/downloads/engine.py:597-642 | Whatever earlier runs left, a run packages exactly the image each address gives, in order, with a manifest of exactly the indices 1 to n; undisturbed it answers by the first address that gives no image, if any; the coverage error cannot occur |
| DownloadPages.ResumedEqualsFresh | backend/oneshelf/downloads/engine.py:597-642 | After any history of stopped runs and lost or damaged files one more run gives the very answer of a run in an empty area, failures included, and the same manifest |
| DownloadPages.AlwaysTrue | backend/oneshelf/downloads/engine.py:629-630 | In every history each manifest entry names an image its address really gives |
| DownloadPages.TrimmedExactly | backend/oneshelf/downloads/engine.py:600-605 | A list that did not change forgets no kept page, and one that did forgets only what lies beyond it |
| DownloadPages.PageDownload.DropStale | backend/oneshelf/downloads/engine.py:600-605 | Indices beyond the list are forgotten, no others |
| DownloadPages.PageDownload.NextPage | backend/oneshelf/downloads/engine.py:606-630 | One page: kept, fetched, refused, or stopped before or after it is in place |
| DownloadPages.PageDownload.DownloadPages | backend/oneshelf/downloads/engine.py:597-642 | The result and area of a whole run, stopped anywhere |
| PluginRules.AlwaysGood | backend/oneshelf/plugins/manager.py:205-548 | In every run of owner actions, interrupted installs and uninstalls and reconciliations: at most one active and one previous version, an active one exactly when the plugin is enabled or disabled and then the one it names, its permissions all approved out of approvals really given, every version not retired with its own bytes stored |
| PluginRules.NextGood | backend/oneshelf/plugins/manager.py:205-548 | Each single action keeps these rules |
| PluginRules.InstalledGood | backend/oneshelf/plugins/manager.py:234-318 | An installation does, whatever it answers |
| PluginRules.ApprovedGood | backend/oneshelf/plugins/manager.py:320-338 | An approval does |
| PluginRules.FromRegistryGood | backend/oneshelf/plugins/manager.py:362-391 | Installing from a registry does, approval of a waiting version included |
| PluginRules.RolledBackGood | backend/oneshelf/plugins/manager.py:495-517 | A rollback does |
| PluginRules.MoveKeepsStore | backend/oneshelf/plugins/manager.py:254-255 | Stopping after the move into the store leaves every version its own file |
| PluginRules.PartlyRemovedGood | backend/oneshelf/plugins/manager.py:521-529 | So does stopping while an uninstalled plugin's files are being removed |
| PluginRules.ReconciledExactly | backend/oneshelf/plugins/manager.py:532-548 | Reconciling leaves exactly the files of versions not retired, each with its own bytes, and is idempotent |
| PluginRules.RollbackTwice | backend/oneshelf/plugins/manager.py:495-517 | Two rollbacks restore every version row, and the plugin's row if and only if it was enabled |
| PluginRules.RollbackEnablesIff | backend/oneshelf/plugins/manager.py:514-517 | A rollback enables a disabled plugin if and only if it has a previous version |
| PluginRules.InstallNeverLowers | backend/oneshelf/plugins/manager.py:239-241 | An installation never lowers the active version |
| PluginRules.ApproveLowersIff | backend/oneshelf/plugins/manager.py:320-338 | An approval lowers the active version if and only if the version waits for review, all it asks for is approved now or was for the version in use, and it is older than that version |
| PluginRules.ApproveCanLower | backend/oneshelf/plugins/manager.py:320-338 | For every plugin in use there is a way to that: a waiting update overtaken by a later one |
| PluginRules.StaysDisabled | backend/oneshelf/plugins/manager.py:276-279 | A disabled plugin stays disabled through any installs, updates, approvals and reconciliations |
| PluginOutcomes.InstallAnswersExactly | backend/oneshelf/plugins/manager.py:234-265 | The exact condition of each answer of an installation: already there for the same bytes alone, rejected for other bytes, for an older version or for failing tests, activated, or waiting with just the permissions missing; a package whose tests fail changes nothing |
| PluginOutcomes.ActivatedExactly | backend/oneshelf/plugins/manager.py:246-318 | An activated package is the active version with its own bytes and all its permissions approved, the one before it is the previous one, and the plugin is enabled unless the owner disabled it |
| PluginOutcomes.WaitingExactly | backend/oneshelf/plugins/manager.py:248-318 | A package that waits gets its row and bytes; the version in use and the plugin stay as they were |
| PluginOutcomes.VersionsPassed | backend/oneshelf/plugins/manager.py:234-265 | In every run each version row has the bytes and permissions of a package whose packaged tests passed |
| PluginOutcomes.ApproveAnswersExactly | backend/oneshelf/plugins/manager.py:320-334 | Approving activates just if the version waits and all it asks for is approved now or was for the version in use; else nothing changes |
| PluginOutcomes.ApprovedExactly | backend/oneshelf/plugins/manager.py:331-338 | An approved version is the active one with all it asks for, and a plugin's first version enables it |
| PluginOutcomes.RollbackExactly | backend/oneshelf/plugins/manager.py:495-517 | Rolling back works just if there is a previous version: it and the active one change places, and the plugin is enabled |
| PluginOutcomes.ToggleExactly | backend/oneshelf/plugins/manager.py:483-493 | Disabling works just with a version in use and enabling just when disabled; each changes the state alone |
| PluginOutcomes.UninstallExactly | backend/oneshelf/plugins/manager.py:519-530 | Uninstalling leaves the plugin uninstalled with no active version, every version row kept but retired, and no file |
| PluginOutcomes.RegistryExactly | backend/oneshelf/plugins/manager.py:362-391 | Installing waiting bytes again from the registry is their approval; what such an installation activates or leaves waiting makes the registry the channel |
| PluginOutcomes.OlderExactly | backend/oneshelf/plugins/manager.py:111-112 | Versions are ordered by the first number that differs, a version before any that continues it |
| Plugins.PluginManager.RowWith | backend/oneshelf/plugins/manager.py:172-175 | The one version row in a status |
| Plugins.PluginManager.InstallFile | backend/oneshelf/plugins/manager.py:234-265 | The outcome and tables of an installation, step by step |
| Plugins.PluginManager.Record | backend/oneshelf/plugins/manager.py:270-318 | The rows after a version is recorded |
| Plugins.PluginManager.Approve | backend/oneshelf/plugins/manager.py:320-338 | The outcome and tables of an approval |
| Plugins.PluginManager.Rollback | backend/oneshelf/plugins/manager.py:495-517 | The tables after a rollback, or none changed |
| Plugins.PluginManager.Disable | backend/oneshelf/plugins/manager.py:483-487 | Refused without an active version |
| Plugins.PluginManager.Enable | backend/oneshelf/plugins/manager.py:489-493 | Refused unless disabled |
| Plugins.PluginManager.Uninstall | backend/oneshelf/plugins/manager.py:519-530 | Rows retired, then files removed |
| Plugins.PluginManager.ReconcileStore | backend/oneshelf/plugins/manager.py:532-548 | Every plugin's store reconciled, staging emptied, and exactly the files removed counted |
| Bundled.MaintainRespectsOwner | backend/oneshelf/plugins/bundled.py:189-243 | For an installed plugin the sync changes nothing unless it is enabled and on the bundled channel, approves nothing, and never lowers the active version |
| Bundled.SyncRespectsOwner | backend/oneshelf/plugins/bundled.py:136-154 | So does a sync with any bundle, for every plugin, and the version in use afterwards asks for nothing that was not approved before |
| BundledAgain.AbsentStaysAbsentIff | backend/oneshelf/plugins/bundled.py:194-202 | After the bootstrap a sync installs an adapter the library does not have if and only if a build of it is noted as failed and the bundle has one that installs, together with or after one that is not that build |
| Bundled.MaintainTwice | backend/oneshelf/plugins/bundled.py:189-243 | Seeing an adapter again right away changes nothing |
| BundledAgain.SyncTwiceIff | backend/oneshelf/plugins/bundled.py:136-154 | A second sync with any bundle leaves a plugin as the first left it if and only if the first left none of its builds wanted: not noted as failed, refused by nothing, and newer than the version in use (or to be installed anew) |
| BundledAgain.ChangesIff | backend/oneshelf/plugins/bundled.py:189-243 | Seeing one build changes a plugin's tables if and only if the build is wanted |
| BundledAgain.MaintainAllKept | backend/oneshelf/plugins/bundled.py:148-149 | A sync does to each plugin what its own builds do to it, in their order |
| Bundled.SyncTwice | backend/oneshelf/plugins/bundled.py:136-154 | The case that always holds: with one build for each id a second sync leaves all plugin tables as they are |
| Bundled.TwoUnderOneId | backend/oneshelf/plugins/bundled.py:194-202 | With two adapters under one id a second sync can install what the first left alone |
| Bundled.BootstrapRespectsOwner | backend/oneshelf/plugins/bundled.py:157-169 | A library whose owner already chose sources is left as it is by the bootstrap |
| BundledOutcomes.FirstInstallExactly | backend/oneshelf/plugins/bundled.py:173-186 | A first installation fails, is noted as failed and changes nothing just if the build does not load, does not pass its tests or cannot replace what is there; else the adapter is in use with all it asks for, and noted as installed |
| BundledOutcomes.BootstrapInstalls | backend/oneshelf/plugins/bundled.py:157-170 | The first sync of a library without adapters of the owner's installs and enables each adapter it never had whose tests pass, and notes the others as failed |
| BundledOutcomes.BootstrapSkips | backend/oneshelf/plugins/bundled.py:163-169 | If the owner chose any of the adapters another way, the first sync installs nothing and notes all as skipped |
| BundledOutcomes.UpdatesExactly | backend/oneshelf/plugins/bundled.py:189-242 | A newer build of an enabled bundled adapter is activated just if it did not fail before, is not there yet, passes its tests and asks for nothing unapproved; it waits just if it asks for more |
| Bundled.WorldAlwaysGood | backend/oneshelf/plugins/bundled.py:136-243 | The lifecycle rules hold for every plugin through any mix of owner actions and syncs |
| Plugins.PluginManager.InstallFirst | backend/oneshelf/plugins/bundled.py:173-186 | The tables and note of a first install |
| Plugins.PluginManager.Maintain | backend/oneshelf/plugins/bundled.py:189-243 | The tables and note of keeping one adapter current |
| Plugins.PluginManager.Bootstrap | backend/oneshelf/plugins/bundled.py:157-170 | Every adapter installed, or every one noted as skipped |
| Plugins.PluginManager.SyncBundled | backend/oneshelf/plugins/bundled.py:136-154 | The tables, notes and marker after a sync |
| MergeState.AssetsKept | backend/oneshelf/library/reclassify.py:125-131 | Merging a unit keeps every asset with its file, and no two assets of a unit share format and variant |
| MergeState.ProgressKept | backend/oneshelf/library/reclassify.py:132-142 | The survivor's progress is the greater of the two and one of the two |
| MergeState.MarksKept | backend/oneshelf/library/reclassify.py:114-117 | Every place bookmarked in either unit is bookmarked in the survivor, and nothing else is |
| MergeState.OverridesKept | backend/oneshelf/library/reclassify.py:146-148 | A survivor's own correction stays; another's becomes its own where it had none |
| MergeState.MergedUnitRuled | backend/oneshelf/library/reclassify.py:125-149 | The merged unit is gone, nothing refers to it, and the tables keep their keys |
| MergeTrack.TrackMerged | backend/oneshelf/library/reclassify.py:152-160 | After merging all units of a track: assets, rows, places, progress and corrections accounted for one by one, nothing left on the old track, nothing refers to a unit that had a twin |
| MergeTrack.MergedAllAccount | backend/oneshelf/library/reclassify.py:152-160 | The same account after each unit of the loop |
| MergeRepair.TrackConserved | backend/oneshelf/library/reclassify.py:152-160 | The account of one merged track as a map from each unit to where its belongings are now |
| MergeRepair.ConservedThrough | backend/oneshelf/library/reclassify.py:93-101 | What two merges conserve one after the other they conserve together, so a repair of many tracks loses no asset, row, place or correction and never lowers progress |
| MergeRepair.GoneUnreferenced | backend/oneshelf/library/reclassify.py:146-149 | Nothing refers to a unit whose belongings went elsewhere |
| Reclassify.SnapsMerged | backend/oneshelf/library/reclassify.py:161-168 | The surviving track has of each kind of snapshot its own if it has a trusted catalog, and otherwise its own and the other's; nothing is left on the old track, and there is still at most one trusted catalog |
| Reclassify.SnapsWithinIff | backend/oneshelf/library/reclassify.py:161-168 | A bound on previous, suspicious or incomplete snapshots holds after the merge if and only if the survivor has a trusted catalog or both tracks together keep it |
| Reclassify.EventsJoined | backend/oneshelf/library/reclassify.py:177-178 | A key is reported to the kept follow if and only if it was to either |
| Reclassify.TrailMerged | backend/oneshelf/library/reclassify.py:161-188 | No snapshot, event, baseline or correction is left on the old track, and the follow taken along keeps all its reports; no follow is left there if and only if no other follow was on it |
| Reclassify.SplitLeavesFollow | backend/oneshelf/search/mapping.py:46-66 | A track that two works follow, as after a split: whichever follow is taken along, the other still points at the track |
| Reclassify.RelabelledRuledIff | backend/oneshelf/library/reclassify.py:107-111 | Relabelling loses no follow and leaves one for each work and language, if and only if no two follows of one work on the track are in each other's way |
| Reclassify.NothingLeftIff | backend/oneshelf/library/reclassify.py:45-78 | After applying the plan nothing is planned if and only if no source of an undetermined track declares the undetermined language |
| Reclassify.TrackPlannedExactly | backend/oneshelf/library/reclassify.py:54-70 | A track is planned for just if it has no language and its source declares one, merged just if another track of its listing has that language, and else relabelled |
| Reclassify.WorkPlannedExactly | backend/oneshelf/library/reclassify.py:71-78 | A work is given a type just if it has none and all its sources that declare one agree on that |
| Reclassify.BaselinesStay | backend/oneshelf/library/reclassify.py:152-184 | A merge drops exactly the baselines of a follow that it drops, and re-points those of the old track |
| Reclassify.AppliedRuled | backend/oneshelf/library/reclassify.py:85-102 | Applying keeps one track for each listing and language |
| Reclassifier.Repair.MoveAssets | backend/oneshelf/library/reclassify.py:126-131 | Asset by asset, with the clash looked up each time |
| Reclassifier.Repair.MoveProgress | backend/oneshelf/library/reclassify.py:132-142 | The progress rows after the merge |
| Reclassifier.Repair.MergeUnit | backend/oneshelf/library/reclassify.py:125-149 | All tables after one unit is merged |
| Reclassifier.Repair.Twin | backend/oneshelf/library/reclassify.py:155-156 | The unit of the surviving track with the same key |
| Reclassifier.Repair.MergeUnits | backend/oneshelf/library/reclassify.py:153-160 | All units of the old track, each merged or moved |
| Reclassifier.Repair.MergeTrail | backend/oneshelf/library/reclassify.py:161-187 | Snapshots, follows, events, baselines and corrections after the merge |
| Reclassifier.Repair.Merge | backend/oneshelf/library/reclassify.py:152-188 | Fails if and only if two follows are on the old track; otherwise nothing of that track is left; and everything that hung on a unit is where it went |
| Reclassifier.Repair.Relabel | backend/oneshelf/library/reclassify.py:107-111 | The track and its follows after relabelling; fails if and only if two follows of one work clash |
| Reclassifier.Repair.ChangeOfTrack | backend/oneshelf/library/reclassify.py:54-70 | What the plan says about one track |
| Reclassifier.Repair.ChangeOfWork | backend/oneshelf/library/reclassify.py:71-77 | What the plan says about one work |
| Reclassifier.Repair.Plan | backend/oneshelf/library/reclassify.py:45-78 | Exactly the changes of all tracks and works |
| Reclassifier.Repair.ChangeTracks | backend/oneshelf/library/reclassify.py:93-101 | Every planned change of a track, until one fails |
| Reclassifier.Repair.DeleteTrack | backend/oneshelf/library/reclassify.py:188-188 | Refused while a unit, a snapshot or a follow is on the track |
| Reclassifier.Repair.Apply | backend/oneshelf/library/reclassify.py:85-102 | Tracks and works after the plan, or nothing changed at all; it fails if a track to be merged has two follows, and otherwise only if one to be relabelled has two of one work; and whatever it does, assets, rows, places, progress and corrections are conserved |
| RateLimit.ForgettingChangesNothing | backend/oneshelf/api/rate_limit.py:22-42 | Cleaning up and dropping old hits never changes an answer, compared with a limiter that keeps all it ever allowed |
| RateLimit.AtMostMaxInWindow | backend/oneshelf/api/rate_limit.py:32-42 | Any half-open window of the configured length, open on either side, contains at most max_requests allowed hits of an address |
| RateLimit.AlwaysSpaced | backend/oneshelf/api/rate_limit.py:32-42 | Any max_requests + 1 allowed hits in a row span at least a window |
| RateLimit.WaitIsExact | backend/oneshelf/api/rate_limit.py:32-42 | In every run the wait told is positive and at most a window, and a later check of the address, whatever others do meanwhile and however often it tries before, is allowed if and only if that long has passed |
| RateLimit.StillRefused | backend/oneshelf/api/rate_limit.py:32-42 | While the wait lasts nothing is added to what an address was ever allowed |
| RateLimit.RetryAfterSuffices | backend/oneshelf/api/rate_limit.py:49-61 | In every run the whole-second Retry-After header is always enough |
| RateLimit.FailsIff | backend/oneshelf/api/rate_limit.py:39-40 | A check fails for want of a hit to count from if and only if no request is ever to be allowed |
| RateLimit.ForgetsTheSilent | backend/oneshelf/api/rate_limit.py:24-33 | After any run of checks the last cleanup is less than a window ago, and the table holds only addresses that were let through within the last two windows |
| RateLimit.RateLimiter.Cleanup | backend/oneshelf/api/rate_limit.py:22-30 | Every list pruned and empty ones removed, once a window |
| RateLimit.RateLimiter.Check | backend/oneshelf/api/rate_limit.py:32-42 | The answer and table after a check |
| EventBus.NeverLostSilently | backend/oneshelf/events/bus.py:50-95 | For every subscription of every run: while open, consumed, queued and pending events are exactly those published since it subscribed; once closed without being given up, its reader finds events it was sent and then exactly one resync, its last word, and that if and only if the bus dropped it; the queue never exceeds its size |
| EventBus.AlwaysGood | backend/oneshelf/events/bus.py:50-95 | In every run at most a hundred subscriptions are open, exactly those not closed, each with a true account of what it saw, and a resync last if it was closed without being given up |
| EventBus.DeliverHonest | backend/oneshelf/events/bus.py:78-95 | One delivery keeps a subscription's account |
| EventBus.AlwaysRoom | backend/oneshelf/events/bus.py:78-95 | An open queue always has room, so the QueueFull handlers are never reached |
| EventBus.SubscribeExactly | backend/oneshelf/events/bus.py:50-56 | A subscription is taken just while there are fewer than a hundred, and begins with nothing |
| EventBus.OverflowedIffDropped | backend/oneshelf/events/bus.py:78-95 | In every run a subscription ends with a resync if and only if a delivery of the bus closed it, even if it is given up later |
| EventBus.SentIsPublished | backend/oneshelf/events/bus.py:63-76 | What a subscription was sent is what was published while it was open |
| EventBus.ReadInOrder | backend/oneshelf/events/bus.py:78-95 | In every run what a subscription has been given is only ever added to at its end, and what it read stays read |
| EventBus.ReadAsAsked | backend/oneshelf/events/bus.py:24-31 | In every run a reader has read as many items as it asked for, each the first it had not read |
| EventBus.NumberedInOrder | backend/oneshelf/events/bus.py:63-66 | Published events are numbered from one without a gap |
| EventBus.Broker.Create | backend/oneshelf/events/bus.py:35-37 | Refused for a queue size below two |
| EventBus.Broker.Subscribe | backend/oneshelf/events/bus.py:50-56 | Refused when a hundred are open, else a fresh open subscription |
| EventBus.Broker.Unsubscribe | backend/oneshelf/events/bus.py:58-61 | Closes it and takes it out |
| EventBus.Broker.Deliver | backend/oneshelf/events/bus.py:78-95 | The queue and closing of one delivery; the second handler is dead code |
| EventBus.Broker.Publish | backend/oneshelf/events/bus.py:63-76 | Every subscriber at that moment gets the event, at once or by exactly one callback to its loop unless that has closed; nobody else is called, and exactly those that overflowed leave |
| EventBus.Broker.RunCallback | backend/oneshelf/events/bus.py:75-75 | A loop runs one delivery handed to it; the subscriber leaves if it overflowed |

## Left out

- Event-loop internals: a step runs without interruption between two suspension points; futures, tasks and timers are plain values, and objects are told apart by tickets.
- `asyncio` scheduling of `install_file` between its checks and its record: the two are one step, interrupted only by a crash.
- SQLite: a table is a map, a transaction one step, and uniqueness keys are invariants or hypotheses; the inserting of default rows on a mere read is not shown.
- Floating point: seconds, fractions and ratios are reals.
- Columns that are only carried along (volumes, addresses, release dates, names, categories, evidence texts, revisions of rows) and the `order_index` of a listing, which is its position.
- Trimming, length limits and the list of types for corrections of units, which are taken as checked; JSON encoding; the search index. Blanks other than ASCII ones.
- `next_check_at`, jitter and which follow is due: when a check runs, not what it reports; `status` and the listing queries of Follow.
- `keep_partial_on_cancel`: what a canceled job had staged is shown as kept; deleting it is not a step of its own.
- Paused batches, queue positions, `next_attempt_at` and session readiness: when a job may start, not what it does.
- CommitEngine, packaging, hashing, image, archive and signature checks: a commit goes from its thread to an open journal row and then to one atomic registration or is given up; validity and hash are parameters.
- Redirects, egress policy, cookies and header text other than ASCII.
- DownloadResume.NeverSpliced: takes from the source that an answer that ends without error is whole, and that a 206 to a conditional range is of the version asked for or says otherwise.
- DownloadPages.ResumedEqualsFresh: takes addresses to always give the same bytes and the hash to be free of collisions; leftover `.part` files are overwritten and not shown.
- Text downloads and storage preflight.
- Registry reviews, trust labels by signature, notifications and the package cache of the plugin manager.
- Version numbers: two spellings of the same numbers are not told apart.
- BundledAgain.SyncTwiceIff: takes equal bytes under one id to be one build, which loads alike each time, and hashes to be free of collisions.
- Reclassify.NothingLeftIff: takes all tracks of a listing to be of one work and source, as the listing's own row says.
- RateLimit.ForgettingChangesNothing: takes checks in the order of their clock readings; two threads that read the clock before either holds the lock are not shown.
- MergeState.AssetsKept: a merged variant is kept as its parts, so that texts that happen to look alike are not confused.
- The `und` repair of rows other than tracks, works, follows and what hangs on units; the SQLite snapshot taken first.
- HTTP endpoints, server-sent event framing, heartbeats, the frontend, deployment, shelf, statistics and other views.
