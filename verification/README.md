# A verified model of the MnemosyneOS core

This Dafny project models the state machines at the centre of MnemosyneOS and proves what holds of them over
whole runs: the versioned memory store with its snapshots and journal, decay, candidate promotion and
event-to-fact upgrade; the execution plane with its retry loops and replay by idempotency key; approvals; the
task runtime and the memory scheduler that submits into it; the confirmation protocol of the chat; and the env
file that the command line tool updates and the server loads.

`dafny verify dfyconfig.toml` checks everything.

## How it is built

Each component has two parts. A module of functions states what every operation does to a value that holds the
whole state (`MemoryModel`, `Execution`, `Approvals`, `Runtime`, `Scheduler`, `Chat`, `EnvFile`), and the lemmas
about runs are proved of it. A class with the fields of the original holds the methods in their original form,
loops and early returns included; each is proved to do to its fields exactly what the function says
(`MemoryStore`, `Consolidation`, `UpgradeEngine`, `Executor`, `ApprovalStore`, `Orchestrator`,
`SchedulerService`, `ChatService`, `EnvHost`). What the lemmas say therefore holds of the methods. `Requests`,
`MemoryFields`, `UpgradeOutcome` and `RuntimeFields` say of the requests, cards, edges and tasks, field by field, what
the functions make of them.

- Strings are byte strings, as in Go. Directories are maps from file name, or from (state, id), to contents.
- Clock readings, digests, tokens, routing, recall and the outcomes of processes and file operations are parameters;
  a digest is any function of fixed length, so digests may collide. The order in which a Go map is met is never fixed:
  a method returns the order it took as a ghost result, and its contract holds for that order.
- A crash stops an operation between the change in memory, the snapshot write, the removal of the legacy file
  and the journal line of any of its writes. A crash also stops a rebuild, while it wipes the files or writes them.
  A restart reads the snapshot directory. A step is steady (`MemoryCrash.Steady`) when it loses no file of another
  entity and writes nothing that contradicts the journal.
- Scores are reals, and times are whole nanoseconds.

## What the code does not guarantee

Some stronger statements a reader may expect are false of the code. For each there is a lemma with the input or the
run on which it fails, and one that says exactly when it holds.

- Writing a card removes its legacy file name, which can be another card's current name: card `61` removes the
  file of card `a` (`MemoryFiles.PersistCanLoseAFile`). The files stay right if and only if the written id is not
  spelled as the hexadecimal form of another stored one (`MemoryFiles.PersistKeepsFiles`,
  `MemoryCrash.WriteIsRecoverableIff`; `MemoryFiles.RewritingHolds` and `MemoryCrash.RebuildIsRecoverableIff` for a
  rebuild).
- After a crash the journal can hold an edge without its card (`MemoryExamples.ReplayedEdgeCanDangle`). In a store that
  lacks nothing and has the cards of its own edges, it does not if and only if the integrity check reports no endpoint
  of a replayed edge as extra (`MemoryCrash.ReplayIsLinkedIff`).
- A rebuild after a crash can lose a stored card, and leave the running store with an edge whose card is gone
  (`MemoryExamples.RebuildCanLoseACard`). After steady steps it changes no card or edge if and only if the integrity
  check finds nothing (`MemoryCrash.RebuildIsHarmlessIff`); `MemoryCrash.RebuildKeepsLinkedIff` says when it leaves
  every edge its cards.
- A rebuild that is cut off can leave the running store without cards that the journal holds, until the next complete
  one (`MemoryExamples.RebuildCutCanLoseACard`). It loses nothing if and only if every journaled entity has its file at
  that point (`MemoryCrash.RebuildCutIsRecoverableIff`).
- Creating again what such a rebuild lost can contradict the journal. If a card is created again with another value and
  its journal line is cut off, the check finds nothing although the two differ, and a rebuild brings the old value back
  (`MemoryExamples.RecreatedCardCanDiffer`). A write that is cut off after its snapshot agrees with the journal if and
  only if it does not create with another value what is reported as missing (`MemoryCrash.CutIsRepairableIff`).
- If an edge is created again between other cards, the journal keeps its old index entries, and the next rebuild lists
  it under a card it does not touch (`MemoryExamples.RecreatedEdgeCanMislead`). A completed write that loses no file
  leaves the journal well-formed and in agreement if and only if it is not an edge that the journal holds with other
  endpoints (`MemoryCrash.WriteIsRepairableIff`).
- An update takes its validity window from the request alone, so a promotion clears the window
  (`MemoryQuery.UpdateReplacesWindow`, for every update and instant).
- A promoted candidate can end superseded (`Consolidation.PromotedCanEndSuperseded`), namely when it names itself or a
  candidate promoted after it names it (`Consolidation.ConsolidationOutcome`).
- Approving a task while another is active leaves two active tasks (`Runtime.ApproveCanMakeTwoActive`, a run). The
  invariant holds afterwards if and only if no other task was active (`Runtime.ApproveOutcome`).
- Recovery then leaves a task active that nothing points at (`Runtime.RecoverCanLeaveActive`). It leaves nothing active
  if and only if no task was active but the one pointed at (`Runtime.RecoverOutcome`, `Runtime.RecoveryOfRun`).
- Denying a task that was stored without metadata panics (`Runtime.DenyCanPanic`): an empty map is left out of the
  file, and is nil when the file is read back. It panics exactly on such tasks (`Runtime.DenyOutcome`).
- The skip paths of the scheduler forget when it last triggered, so that two triggers can be 2 ns apart whatever the
  cooldown (`Scheduler.CooldownCanFail`). An evaluation is held back if and only if the trigger is still remembered
  (`Scheduler.CooldownHoldsWhileRemembered`).
- A command without arguments and the same command with one empty argument have one fingerprint, so that one can be
  answered with the output of the other (`Requests.NoArgumentsLookLikeAnEmptyOne`). Otherwise two commands have the same
  fingerprint if and only if they ask for the same (`Requests.CommandsAreTold`).
- A goal that was previewed for `user` runs under `root` if the approving message asks for that
  (`ChatExamples.ApprovalCanChangeProfile`): the profile that the preview stores is never read. It runs under the
  previewed profile if and only if both messages ask for the same one (`ChatRuns.ApprovalCarriesProfileIff`).
- An approved goal can be filed while the turn goes on to run another task (`ChatExamples.ApprovedGoalCanWait`),
  namely when the record points at an active task (`ChatRuns.ApprovedGoalIsFiled`).
- A background task that ends while a preview is pending leaves the previewed goal behind, and approving the next
  preview carries out the earlier goal (`ChatExamples.CompletionLeavesStaleGoal`). Over any history, an approval carries
  out the goal of the preview it answers if and only if no other goal was in the session before that preview
  (`ChatRuns.ApprovalCarriesPreviewIff`).
- Repeating an env update can rewrite the file (`EnvRepeat.RepeatCanDiffer`), namely when a line keeps a carriage return
  (`EnvRepeat.RepeatIsIdentical`, and `EnvRepeat.LastUpdateCounts` for two different updates).

Three pieces of code can never be reached: what follows each retry loop of the executor
(`Executor.ActionExecutor.RunCommand`, `Executor.ActionExecutor.RunFileAction`), the `no_candidates` skip of the
scheduler (`SchedulerService.MemoryScheduler.Schedule`), and the failure messages of the confirmation handler,
apart from I/O errors (`ChatService.Service.HandleIntentConfirmation`).

## Model

| member | source | states |
|---|---|---|
| FileNames.HexNameInjective | internal/memory/store.go:446-452 | two ids never share a current file name |
| FileNames.LegacyNameHits | internal/memory/store.go:446-457 | the legacy name of `a` is the current name of `b` if and only if `a` is the hexadecimal spelling of `b` |
| FileNames.LegacyNameCollision | internal/memory/store.go:454-475 | the pair `61` and `a` collides |
| FileNames.LegacyBodyAt | internal/memory/store.go:454-458 | in a legacy name each slash is two underscores, each colon or space one, and every other byte stays |
| MemoryStore.Store.CreateCard | internal/memory/store.go:79-130 | the whole state afterwards: memory, snapshot file, legacy file and journal, or an error and nothing changed |
| MemoryStore.Store.UpdateCard | internal/memory/store.go:132-202 | the same for an update, including the version chain and what the request replaces |
| MemoryStore.Store.TouchCard | internal/memory/store.go:317-352 | the same for a touch, with clamped score and confidence |
| MemoryStore.Store.CreateEdge | internal/memory/store.go:204-247 | the same for an edge and the per-card index |
| MemoryFields.CreateAdds | internal/memory/store.go:79-130 | field by field, the card that a request gives, its file and its journal line; or which error, and nothing changed |
| MemoryFields.UpdateAdds | internal/memory/store.go:132-202 | the same for an update: each entry that the request gives is taken, every other is kept, and the window is always that of the request |
| MemoryFields.TouchAdds | internal/memory/store.go:317-352 | the same for a touch: score and confidence are the old ones plus the changes, or the nearest number between 0 and 1 |
| MemoryFields.LinkAdds | internal/memory/store.go:204-247 | the same for an edge between two stored cards, which is listed last under both |
| MemoryStore.Store.DecayAndCompact | internal/memory/governance.go:24-120 | in whatever order the cards are met: no card comes or goes, every card is as `MemoryFields.StoreDecays` says, with the given options or their defaults, the new state is that of one decay step, and the counters are those of the visited cards |
| MemoryStore.Store.DecayLatest | internal/memory/governance.go:44-105 | which version, if any, a pass appends to one card: the one that `MemoryFields.PassDecays` describes |
| MemoryStore.Store.ReplayFromJournal | internal/memory/journal.go:90-126 | the store that the event-by-event reading of the journal gives |
| MemoryFields.CardLineReplaces | internal/memory/journal.go:98-110 | the line of a card replaces its versions by those of the snapshot, under their own id, and nothing else |
| MemoryFields.EdgeLineAdds | internal/memory/journal.go:111-124 | the line of an edge stores it, and lists it, last, under its endpoints only when it is new |
| MemoryFields.OtherLinesSayNothing | internal/memory/journal.go:90-126 | a journal line of an unknown kind, or without its snapshot, adds nothing to the replay |
| MemoryStore.Store.VerifyIntegrity | internal/memory/journal.go:139-189 | the report lists exactly the differences in existence and length between live and replayed store, each once, and is OK exactly when there is none |
| MemoryStore.Store.LoadFromDisk | internal/memory/store.go:499-546 | whatever order the files are read in, each entity comes from a file that holds it and the index lists each edge once for each file and endpoint |
| MemoryStore.Store.RebuildProjections | internal/memory/store.go:400-441 | memory becomes the replayed journal and both directories are rewritten in some order |
| MemoryStore.Store.Query | internal/memory/store.go:249-293 | exactly the resolved cards that pass the filters, each once, and exactly the edges that touch them |
| MemoryStore.Store.CollectEdgesForCards | internal/memory/store.go:381-395 | the index walk returns exactly the stored edges with an endpoint in the list, each once, self-loops included |
| MemoryStore.Store.ResolveAsOf | internal/memory/store.go:354-375 | the backward loop finds the version that the as-of rule names |
| MemoryInvariant.StepKeepsWellFormed | internal/memory/store.go:79-352 | every operation keeps the chains numbered 1..n with right back links and the index equal to a scan |
| MemoryInvariant.StepKeepsLinked | internal/memory/store.go:204-247 | every operation keeps both cards of every edge |
| MemoryInvariant.BackLinkNamesPredecessor | internal/memory/store.go:132-202 | the back link of a version names the version before it, and no other version of the card |
| MemoryInvariant.WritesAreLegal | internal/memory/store.go:79-352 | each single write of every operation is legal where it happens |
| MemoryInvariant.DecayWritesAreLegal | internal/memory/governance.go:44-117 | a decay pass in any order performs legal writes and changes exactly the cards it met |
| MemoryInvariant.IndexIsDeterminedByEdges | internal/memory/store.go:381-395 | two indexes over the same edges agree up to the order of their lists |
| MemoryJournal.RunIsJournaled | internal/memory/journal.go:90-126 | on every crash-free run, replaying the journal from empty rebuilds exactly the live cards, edges and index, and every edge has its cards |
| MemoryCrash.RunStaysRecoverable | internal/memory/store.go:460-575 | over any run of steady steps, with crashes between the steps of a write, crashes inside a rebuild, restarts and rebuilds, in any number, the directories hold exactly the live cards and edges, and the journal has a prefix of the live chain or the live edge wherever both have one; the store lacks exactly what the last rebuild lost, if it was cut off, and nothing has written since |
| MemoryCrash.StepIsRepairableIff | internal/memory/store.go:400-475 | a step keeps that if and only if it is steady: it loses no file and does not contradict the journal; for every step with at most one write and every complete rebuild, unless a crash drops another entity's file |
| MemoryCrash.WriteIsRepairableIff | internal/memory/store.go:116-247 | a completed write keeps that if and only if its id is not spelled as the hexadecimal form of another stored id and it is not an edge that the journal holds with other endpoints; what it writes is no longer missing |
| MemoryCrash.CutIsRepairableIff | internal/memory/store.go:116-247 | a write that is cut off keeps that, after the restart, if and only if it stopped before the snapshot or does not create, with another value, what the journal holds and the store lacks |
| MemoryCrash.WriteIsRecoverableIff | internal/memory/store.go:460-475 | where nothing is missing, a legal write keeps it so if and only if its id is not spelled as the hexadecimal form of another stored id |
| MemoryCrash.IntegrityOfRuns | internal/memory/journal.go:139-189 | over runs of steady steps the check reports as missing exactly what the last rebuild lost and nothing has written since, every mismatch means a short journal, and OK holds if and only if the replayed cards and edges equal the live ones |
| MemoryExamples.RecreatedCardCanDiffer | internal/memory/journal.go:139-189 | a run after which the check finds nothing although the journal has another value of the card, which a rebuild brings back |
| MemoryExamples.RecreatedEdgeCanMislead | internal/memory/journal.go:118-122 | a run after which a rebuild lists an edge under a card it does not touch |
| MemoryCrash.EndpointsSurviveCrashes | internal/memory/store.go:204-247 | over any run of steady steps every edge in the running store has both its cards, as long as each rebuild, complete or cut off, met the condition that leaves it so |
| MemoryExamples.ReplayedEdgeCanDangle | internal/memory/journal.go:118-122 | a run whose replayed journal holds an edge without its card, which the running store has |
| MemoryCrash.ReplayIsLinkedIff | internal/memory/journal.go:90-126 | after steady steps, in a store that lacks nothing and has the cards of its own edges, the replayed edges have their replayed cards if and only if the check reports no endpoint of one as extra; in general each also has to be in the running store or reported as missing |
| MemoryExamples.RebuildCanLoseACard | internal/memory/store.go:400-441 | a run whose rebuild takes away a stored card and leaves its edge |
| MemoryExamples.RebuildCutCanLoseACard | internal/memory/store.go:400-441 | a run whose interrupted rebuild loses the only card, which the check reports and a complete rebuild brings back |
| MemoryCrash.RebuildIsHarmlessIff | internal/memory/store.go:400-441 | after steady steps a rebuild changes no card or edge if and only if the check finds nothing; it takes away exactly what is reported as extra and brings back exactly what is reported as missing |
| MemoryCrash.RebuildKeepsLinkedIff | internal/memory/store.go:400-441 | after steady steps, a rebuild of a store that lacks nothing and has the cards of its own edges leaves every edge its cards if and only if the check reports no endpoint of a replayed edge as extra; in general each also has to be in the running store or reported as missing |
| MemoryCrash.RebuildIsRecoverableIff | internal/memory/store.go:400-441 | a complete rebuild brings back whatever was missing, and leaves the directories right if and only if no later id spells an earlier one in either order |
| MemoryCrash.RebuildCutIsRecoverableIff | internal/memory/store.go:400-441 | a rebuild that is cut off leaves the restarted store with everything the journal holds if and only if every journaled entity has its file at that point |
| MemoryCrash.RebuildCutKeepsLinkedIff | internal/memory/store.go:400-441 | a rebuild that is cut off leaves every edge its cards if and only if the edges whose files are there have their cards' files |
| MemoryFiles.LoadRestores | internal/memory/store.go:499-546 | persisting and loading gives back the same cards and edges, and the index up to the order of its lists |
| MemoryFiles.PersistKeepsFiles | internal/memory/store.go:460-475 | a write keeps every file right if and only if the written id is not the hexadecimal spelling of another stored id |
| MemoryFiles.PersistCanLoseAFile | internal/memory/store.go:460-475 | writing card `61` loses the file of card `a` |
| MemoryFiles.RewritingHolds | internal/memory/store.go:400-441 | rewriting all files leaves one right file each if and only if no later id spells an earlier one |
| MemoryFiles.RebuildChangesNothing | internal/memory/store.go:400-441 | after a crash-free run a rebuild changes no card, edge or index list; the directories are right exactly for harmless orders |
| MemoryDecay.StoreDecayIgnoresSchedule | internal/memory/governance.go:55-105 | for any schedule of passes and any visiting orders, with any other operations in between that neither update nor touch the card, its score after the last pass is within 0.001 above continuous decay from the first one |
| MemoryDecay.DecayIgnoresSchedule | internal/memory/governance.go:55-105 | the same for one card and any sequence of passes |
| MemoryDecay.DecayOrderIsIrrelevant | internal/memory/governance.go:44-117 | every visiting order gives the same store |
| MemoryDecay.DecayAllIsIdempotent | internal/memory/governance.go:44-117 | a second pass with the same options changes nothing |
| MemoryDecay.PassMovesOneStep | internal/memory/governance.go:44-105 | at most one step along active, stale, archived, only below the threshold, and no other card is touched |
| MemoryDecay.ZeroIsArchived | internal/memory/governance.go:55-105 | at score zero a card is archived by at most two effective passes |
| MemoryDecay.TallyCounts | internal/memory/governance.go:44-119 | the counters are the numbers of governed, changed, newly stale and newly archived cards, so staled + archived <= decayed <= examined |
| MemoryFields.PassDecays | internal/memory/governance.go:55-105 | for every card and pass: an active or stale card, some time after its last evaluation, loses the hours since then times the rate of its policy, unless that is at most 0.001; an active card is stale afterwards if and only if its score is then below one threshold, a stale one archived if and only if it is below the other; nothing else of it changes |
| MemoryFields.StoreDecays | internal/memory/governance.go:44-117 | a pass over the store does exactly that to every card |
| MemoryFields.PassIsLogged | internal/memory/governance.go:107-117 | a pass adds one `decay_applied` line to the journal for each card it counts as decayed |
| MemoryQuery.TouchAndDecayAreInvisible | internal/memory/store.go:317-375 | for every card and instant, a touch or a decay pass leaves what an as-of query sees unchanged, and chains only grow |
| MemoryQuery.ResolvesToLatest | internal/memory/store.go:354-375 | the answer is the last version whose window contains the instant |
| MemoryQuery.AnswersAre | internal/memory/store.go:249-293 | a card asked for by id is found whatever it is; any other needs the type, the scope and the status asked for, in the version that holds at the instant |
| MemoryQuery.UpdateReplacesWindow | internal/memory/store.go:132-202 | an update answers exactly the instants of the request's window, and all of them without one |
| MemoryQuery.IndexLists | internal/memory/store.go:381-395 | an edge is listed under a card exactly when the card is one of its endpoints |
| Sorting.SortSorts | internal/memory/consolidator.go:33-58 | sorting sorts by any total preorder |
| Sorting.SortedIsUnique | internal/memory/consolidator.go:33-58 | a total order leaves only one sorted arrangement |
| Sorting.FirstDifferenceDecides | internal/memory/consolidator.go:43-48 | of two ids the first byte in which they differ decides which comes first |
| Consolidation.Consolidator.PromoteCandidates | internal/memory/consolidator.go:33-91 | the store after the two loops is that of the promotions and archivings in turn, and the report counts them |
| Consolidation.CandidatesAre | internal/memory/consolidator.go:38-55 | the cards examined are exactly the latest versions that are candidates of the type and scope asked for, oldest first, by id among those of one age; as many are promoted as the limit says, or all |
| Consolidation.ConsolidationOutcome | internal/memory/consolidator.go:33-91 | the status of every stored card afterwards; no card changes content, scope, evidence, provenance or score, and no card is touched that is not promoted, named by a promoted one, or archived |
| Consolidation.IndependentCandidates | internal/memory/consolidator.go:33-91 | when no candidate names a candidate, exactly the oldest `limit` ones become active, the rest are archived on request or left alone, exactly the other cards that a promoted one names become superseded, and the remaining ones are left alone |
| Consolidation.PromotedCanEndSuperseded | internal/memory/consolidator.go:52-75 | a store of two candidates, just created, of which the promoted older one ends superseded |
| Consolidation.ReportAddsUp | internal/memory/consolidator.go:33-91 | promoted + archived = examined when the rest is archived |
| Consolidation.ReportNames | internal/memory/consolidator.go:50-89 | the report names the promoted and archived candidates in order, and the stored cards that the promoted ones replace |
| Topics.SameTopicIffSameWords | internal/memory/upgrade.go:154-159 | two strings are one topic exactly when their lowercased words form the same multiset |
| Topics.NoTopicIffNoWords | internal/memory/upgrade.go:154-159 | a string is no topic exactly when it has no words |
| Topics.WordsOfJoin | internal/memory/upgrade.go:154-159 | splitting joined words gives the words back |
| Upgrade.FactsAreWarranted | internal/memory/upgrade.go:30-125 | every added card is the candidate fact of one topic and cites, once each, at least the required number of then-active events of it |
| UpgradeOutcome.UpgradeMakesFacts | internal/memory/upgrade.go:30-125 | over the cards before and after: every new card is the fact of a topic, made from all active events of that topic in the scope, enough of them and trusted enough, with id, content, quotations and provenance as the code builds them; and every such topic has its fact |
| UpgradeOutcome.UpgradeLinksEvidence | internal/memory/upgrade.go:97-119 | over the stores before and after: from each event that a new fact cites there is an edge to the fact, of type `evidence`, weight 1 and the confidence of the event, if its id was free; no other edge is added, none is changed, and the only cards that change are the cited events, archived if the request says so |
| UpgradeOutcome.TopicIsOne | internal/memory/upgrade.go:142-152 | the topic of an event is the first of five entries that has words, normalized |
| UpgradeOutcome.SnippetIsSnippet | internal/memory/upgrade.go:161-171 | an event is quoted by the first of five texts that is not blank, cut to 200 bytes, or else by its id |
| UpgradeOutcome.AverageIsMean | internal/memory/upgrade.go:173-189 | the confidence of a fact is the mean of those given, or 0.7: one more confidence weighs as much as each one before it |
| Upgrade.UpgradeIsIdempotent | internal/memory/upgrade.go:30-125 | a second run of the same request at any later instant does nothing, with or without archiving, in whatever orders cards and topics are met |
| Upgrade.WarrantIgnoresOrder | internal/memory/upgrade.go:58-67 | whether a cluster warrants a fact does not depend on the order of its cards |
| UpgradeEngine.UpgradeEventsToFacts | internal/memory/upgrade.go:30-125 | the store and the counters after the loops are those of the topics in turn; the facts made are those of `UpgradeOutcome.UpgradeMakesFacts` and the edges added those of `UpgradeOutcome.UpgradeLinksEvidence`, for the given options or their defaults |
| UpgradeEngine.ReportedFactsAreNew | internal/memory/upgrade.go:30-125 | the reported facts are exactly the added cards, each once |
| UpgradeEngine.ArchivedAreChanged | internal/memory/upgrade.go:113-119 | the number of events counted as archived is the number of cards that the upgrade changes |
| UpgradeEngine.ClusterEventCards | internal/memory/upgrade.go:129-139 | the loop puts each card with a topic into the cluster of its topic, in order, and no other |
| UpgradeEngine.AverageConfidenceOf | internal/memory/upgrade.go:173-189 | the mean of the positive confidences |
| Execution.ShellLoopAttempts | internal/execution/executor.go:122-171 | attempts are numbered consecutively within the bounds, all but the last failed retryably, and the last agrees with the record |
| Execution.FileLoopAttempts | internal/execution/executor.go:222-285 | the same for reads and writes of files |
| Requests.CommandIsTriedAsAsked | internal/execution/executor.go:117-171 | a command is tried again exactly as long as it times out and the limit asked for allows it, from the first attempt asked for; the history tells of every attempt how it ended and when, and the record of the last |
| Requests.FileIsTriedAsAsked | internal/execution/executor.go:218-285 | the same for reads and writes, which are tried again while they fail in passing; a write reports how many bytes it wrote |
| Execution.RunIsConsistent | internal/execution/store.go:24-54 | over any sequential run each record is in exactly one status directory, no success of one key, kind, profile and fingerprint occurs twice, each can be found again, and every completed record reports one |
| Execution.AtMostOneEffect | internal/execution/executor.go:581-617 | over all attempts of all requests with one key, kind, profile and fingerprint at most one ever succeeds, and every completed record shows that attempt's output |
| Execution.AtMostOneAttemptSucceeds | internal/execution/executor.go:122-285 | of the attempts of one request at most one succeeds, exactly when the settled record is completed, and the record shows its number and output |
| Requests.WritesAreTold | internal/execution/executor.go:316 | two writes have the same fingerprint if and only if they agree in profile, resolved path, content and creation of directories, for any digest that does not collide on the two |
| Requests.ReadsAreTold | internal/execution/executor.go:202 | two reads, if and only if they agree in profile and resolved path |
| Requests.CommandsAreTold | internal/execution/executor.go:100 | two commands, if and only if they agree in profile, resolved command and directory, time limit and arguments, except that no arguments look like one empty argument |
| Requests.NoArgumentsLookLikeAnEmptyOne | internal/execution/executor.go:100 | a command without arguments and the same command with one empty argument have the same fingerprint |
| Execution.ReplayedIffRanWell | internal/execution/executor.go:581-617 | over any run, a request is replayed if and only if it has a key and one with the same key, kind, profile and fingerprint was run before, with success |
| Requests.ReplayedIffDone | internal/execution/executor.go:581-617 | over any run without colliding digests, stated on the requests themselves: a request is replayed if and only if it has a key and the same action was run under it before, with success |
| Requests.ReplayRepeatsAction | internal/execution/executor.go:581-617 | a replay shows the output of a request for the same action, content included, that was run |
| Requests.AnswerNamesAction | internal/execution/executor.go:77-119 | the record of a request that was run names the action asked for, its profile and its key; that of a replay names the same, and what the original adds |
| Execution.ReplayChainEnds | internal/execution/executor.go:581-617 | every chain of replays is finite and ends at an original with the same output |
| Executor.ActionStore.FindCompletedByIdempotency | internal/execution/store.go:125-168 | the scan and sort find the agreeing record that started last, or there is none; an empty filter is dropped, as in the original |
| Executor.ActionStore.Move | internal/execution/store.go:42-54 | the record ends in the named directory and in no other |
| Executor.ActionExecutor.TryReplay | internal/execution/executor.go:581-617 | a replay copies the newest match and changes nothing else; otherwise nothing matches and nothing changes |
| Executor.ActionExecutor.RunCommand | internal/execution/executor.go:117-171 | the loop settles as the attempt-by-attempt rule says, and the code after it is unreachable |
| Executor.ActionExecutor.RunFileAction | internal/execution/executor.go:218-285 | the same for reads and writes |
| Executor.ActionExecutor.ExecuteShell | internal/execution/executor.go:77-172 | a request is refused with nothing recorded, and why, or answered by one possible step of the execution plane |
| Executor.ActionExecutor.ExecuteFile | internal/execution/executor.go:188-286 | the same for reads; writes (lines 302-409) run through the same contract; what the fingerprints tell apart is stated by the rows on `Requests` above |
| Executor.ActionExecutor.AuthorizeProfile | internal/execution/executor.go:693-716 | who is let in, which approval that uses, and when the static token counts: a root caller without the static token has given, but for white space, the token of the approved root request that it uses up |
| Approvals.RunIsSound | internal/approval/store.go:40-212 | over any run each request is in one status directory, its token is non-empty exactly when approved, and every use is accounted for |
| Approvals.ClosedIsTerminal | internal/approval/store.go:108-212 | denied and consumed requests never change again |
| Approvals.DeniedIsNeverUsed | internal/approval/store.go:138-212 | a denied request authorizes nothing at any later point |
| Approvals.UsesAreConserved | internal/approval/store.go:165-212 | the number of uses is the number of consumed requests |
| Approvals.RootGrantsAreConserved | internal/execution/executor.go:693-716 | root authorizations of the executor and consumptions elsewhere (such as internal/skills/external.go:76) together are the consumed approvals plus the uses of the static token |
| Approvals.UsesAreWarranted | internal/approval/store.go:108-212 | over any run, every use was made with the token that an earlier approval gave that very request, and with its profile, at most the time to live after the approval |
| Approvals.RootUsesAreWarranted | internal/execution/executor.go:693-716 | the same for every root caller that an approval lets in, over any run of the gate |
| Approvals.RootIsLetInBy | internal/execution/executor.go:693-716 | a root caller is let in if and only if the static token matches, or an approved, unexpired root request has the token given |
| ApprovalStore.Store.Create | internal/approval/store.go:40-62 | a new pending request with the trimmed fields, or an error and nothing changed |
| ApprovalStore.Store.Approve | internal/approval/store.go:108-136 | succeeds exactly on pending requests; the record gets the token, the expiry and who approved it, and moves |
| ApprovalStore.Store.Deny | internal/approval/store.go:138-163 | succeeds exactly on pending and approved requests; the record loses its token, says who denied it and why, and moves |
| ApprovalStore.Store.Consume | internal/approval/store.go:165-212 | succeeds exactly when the met match has not expired, and uses it up; the match has the token and the profile given, and without a match no approved request has both |
| Runtime.RunIsSound | internal/airuntime/orchestrator.go:18-209 | over any run in which each approval finds no other task active, an active task is moreover always the one pointed at |
| Runtime.RunKeepsTasks | internal/airuntime/orchestrator.go:18-209 | over every run, approvals at any time included, each task is in the one directory of its state, none is ever lost, and the record says busy exactly when it points at a task |
| Runtime.StepKeepsTasks | internal/airuntime/orchestrator.go:18-209 | each operation keeps that, and only a submission adds an id |
| Runtime.StepKeepsSound | internal/airuntime/orchestrator.go:18-209 | each operation keeps an active task the one pointed at, an approval as long as no other task is active |
| Runtime.MoveKeepsFiled | internal/airuntime/store.go:132-153 | a move keeps every task in exactly one directory and touches no other |
| Runtime.RecoverOutcome | internal/airuntime/orchestrator.go:18-59 | recovery leaves the record idle, loses no task and touches none but the one pointed at; nothing is active afterwards if and only if nothing else was |
| Runtime.RecoveryOfRun | internal/airuntime/orchestrator.go:18-59 | the same at every recovery of every run |
| Runtime.RecoverCanLeaveActive | internal/airuntime/orchestrator.go:18-59 | a run in which a recovery leaves a task active that nothing points at |
| Runtime.SubmitOutcome | internal/airuntime/orchestrator.go:61-66 | whatever is active, a submission adds one task, touches no other, and returns the new one, already active, exactly when the record pointed at no active task; it neither breaks nor mends the invariant |
| Runtime.AdvanceOutcome | internal/airuntime/orchestrator.go:68-113 | whatever is active, afterwards the pointer is empty or names an active task, and no task is lost; the invariant holds afterwards if and only if it held before |
| Runtime.PointerOfRun | internal/airuntime/orchestrator.go:61-113 | the pointer is right after every advance and submission of every run |
| Runtime.ActivateTaskOutcome | internal/airuntime/orchestrator.go:191-209 | activation keeps the invariant if and only if no other task is active |
| Runtime.RequeueOutcome | internal/airuntime/orchestrator.go:135-174 | exactly a known task in one of five states can be requeued; it is planned again, the pointer lets go of it, and nothing is lost; the invariant holds afterwards if and only if the other active tasks are pointed at |
| Runtime.ApproveOutcome | internal/airuntime/orchestrator.go:115-125 | whatever is active, an approved task is active and pointed at, and the invariant holds afterwards if and only if no other was active |
| Runtime.ApproveCanMakeTwoActive | internal/airuntime/orchestrator.go:115-125 | a run in which an approval leaves two active tasks: one is submitted and blocked, a second is submitted, the first is approved |
| Runtime.DenyOutcome | internal/airuntime/orchestrator.go:127-133 | whatever is active, a denial panics exactly on a task without metadata and succeeds exactly on the other known ones; the invariant holds afterwards if and only if the other active tasks are pointed at |
| Runtime.DenyCanPanic | internal/airuntime/orchestrator.go:127-133 | the first task submitted to an empty runtime, stored without metadata, cannot be denied |
| RuntimeFields.SubmittedIsAsAsked | internal/airuntime/store.go:50-81 | field by field, the new task is as its request asks, in the inbox or taken up from there; a request without title or goal is refused |
| RuntimeFields.AdvanceTakesUp | internal/airuntime/orchestrator.go:68-113 | the orchestrator carries on with the active task pointed at, or else with the newest one that waits, which becomes active and gets a skill if it has none |
| RuntimeFields.RecoveredSaysSo | internal/airuntime/orchestrator.go:43-55 | a recovered task is the same assignment, planned again, and says when it was recovered |
| RuntimeFields.RequeuedRunsAgain | internal/airuntime/orchestrator.go:135-174 | a requeued task counts one more run, says what triggered it and from which state, and has lost the token and the action of the last run |
| RuntimeFields.ApprovedIsActive | internal/airuntime/orchestrator.go:115-125 | an approved task moreover needs no approval, says who approved it, and is active |
| RuntimeFields.DeniedSaysWhy | internal/airuntime/orchestrator.go:127-133 | a denied task has failed, and says why and by whom |
| Orchestrator.TaskStore.ListTasks | internal/airuntime/store.go:89-130 | all tasks outside the archive, each once for each of its files, newest first |
| Orchestrator.FirstOpenIsNewest | internal/airuntime/orchestrator.go:90-112 | the first open task of a listing is the newest open one |
| Orchestrator.TaskOrchestrator.Recover | internal/airuntime/orchestrator.go:18-59 | the method does to the store what the specification says |
| Orchestrator.TaskOrchestrator.Advance | internal/airuntime/orchestrator.go:68-113 | likewise |
| Orchestrator.TaskOrchestrator.ApproveTask | internal/airuntime/orchestrator.go:115-125 | likewise |
| Orchestrator.TaskOrchestrator.RequeueTask | internal/airuntime/orchestrator.go:135-174 | likewise |
| Scheduler.EvaluateOutcome | internal/memoryscheduler/scheduler.go:75-208 | exactly when an evaluation triggers, whatever is active; a triggered one returns the task just created, already active, and any other leaves the tasks alone; the invariant holds afterwards if and only if it held before |
| Scheduler.EvaluationSaysWhy | internal/memoryscheduler/scheduler.go:90-207 | for each of the outcomes, what held the evaluation back, what is reported and what is remembered; the task submitted has the fields that the code gives it |
| Scheduler.NeverTwoOpen | internal/memoryscheduler/scheduler.go:125-207 | over evaluations and finishing tasks there is never more than one open consolidation task |
| Scheduler.CooldownHoldsWhileRemembered | internal/memoryscheduler/scheduler.go:125-139 | an evaluation with enough candidates is held back if and only if a trigger inside the cooldown is still remembered |
| Scheduler.CooldownCanFail | internal/memoryscheduler/scheduler.go:93-139 | a run that triggers twice within 2 ns, whatever the cooldown, with a skip for lack of candidates in between |
| SchedulerService.MemoryScheduler.EvaluateAndSchedule | internal/memoryscheduler/scheduler.go:75-208 | decays the store, then decides, submits and saves as specified, from the candidates that are really stored |
| SchedulerService.MemoryScheduler.EligibleCandidates | internal/memoryscheduler/scheduler.go:210-235 | counts exactly the stored candidates of the scope with an allowed type |
| SchedulerService.EligibleAre | internal/memoryscheduler/scheduler.go:210-235 | eligible are exactly the latest versions that are candidates of the trimmed scope, of a type that is listed or with no list given |
| SchedulerService.DecayKeepsCandidates | internal/memoryscheduler/scheduler.go:82-88 | the decay pass before an evaluation changes no candidate and no eligibility |
| ChatService.Service.Send | internal/chat/service.go:153-445 | the session states and the runtime after a message are those of the specification, and a message recurs at most once |
| ChatService.Service.HandleIntentConfirmation | internal/chat/service.go:1833-1903 | the confirmation is saved as gone before the message is acted on again |
| ChatService.Service.FinalizeSessionState | internal/chat/service.go:1504-1519 | the session after a task has ended, with the merged references |
| ChatService.DedupeStrings | internal/chat/service.go:1561-1576 | the loop keeps the first occurrence of each trimmed value that is not blank |
| ChatService.ParseConfirmationFromState | internal/chat/service.go:1801-1809 | the loop finds what the first reference with the key says |
| ChatProtocol.TurnOutcome | internal/chat/service.go:153-445 | a message hands over a request exactly when it approves the pending goal, and then for that goal, or when an exception lets it through, and then for the message; the request has the routed skill, the profile that the message asks for or `user`, needs approval exactly for `root`, and names requester and source as given or by default; what becomes of the session, and that no other session changes |
| ChatProtocol.TurnLeaves | internal/chat/service.go:153-445 | for each kind of reply, what the session says afterwards: what is pending, the question, the task it is about, and the references of a preview |
| ChatProtocol.FollowUpsAre | internal/chat/service.go:226-251 | which messages the two follow-up handlers take |
| ChatProtocol.TurnKeepsCoherent | internal/chat/service.go:153-445 | a session holds one goal while a confirmation is pending and none otherwise; a message keeps that, and exactly a preview makes a goal wait |
| ChatProtocol.PreviewHoldsOneGoal | internal/chat/service.go:316-331 | a preview stores its goal and no other reference that reads as a goal |
| ChatProtocol.ParseIsFirstGoal | internal/chat/service.go:1801-1809 | the goal that is read back is the first one stored |
| ChatProtocol.KeptWaiting | internal/chat/service.go:226-251 | a blank message, or one that continues a finished task, leaves the confirmation pending |
| ChatRuns.NothingRunsUnseen | internal/chat/service.go:1738-1767 | over any history, background tasks ending at any time and recall citing anything, a request is handed over only as the user approves, or for the message itself under one of the exceptions; what is approved was previewed in that session, or is what a cited source reads as, or is the reply if a cited source reads as a blank goal |
| ChatRuns.OnlyShownGoalsRun | internal/chat/service.go:1738-1767 | while recall cites nothing that reads as a goal, only goals that were previewed in the session are carried out |
| ChatRuns.ApprovalIsOfLastPreview | internal/chat/service.go:1738-1767 | if recall cites no goal and no background task ends in a session with a pending preview, the approved goal is the one previewed last |
| ChatRuns.PreviewsAreConserved | internal/chat/service.go:1833-1903 | over any history every preview is answered once, taken off by a task that ends, removed or still pending, so a session never approves more tasks than it was shown |
| ChatRuns.ApprovedGoalIsFiled | internal/chat/service.go:333-395 | an approval files a new task with exactly the stored goal, for the profile, requester and source that the message asks for, and goes on with that task if and only if the record points at no active task |
| ChatRuns.ApprovalCarriesPreviewIff | internal/chat/service.go:316-331 | over any history, the approval of a preview that still stands carries out the previewed goal if and only if no other goal was in the session before it |
| ChatRuns.ApprovalCarriesProfileIff | internal/chat/service.go:316-347 | over any history, an approved goal runs under the profile it was previewed for if and only if the approving message asks for the same one |
| ChatExamples.CompletionLeavesStaleGoal | internal/chat/service.go:1504-1519 | a history through `Send` in which a queued background task ends in between and the next approval carries out the earlier goal |
| ChatExamples.ApprovedGoalCanWait | internal/chat/service.go:333-395 | a history in which the approved goal is filed and the turn runs another task |
| ChatExamples.ApprovalCanChangeProfile | internal/chat/service.go:316-347 | a goal previewed for `user`, and carried out under `root` since the approving message asks for that |
| EnvHost.Host.UpsertEnvFile | cmd/mnemosynectl/bootstrap.go:527-579 | the file, the created flag and the reported keys after the two loops |
| EnvHost.Host.LoadEnvFile | internal/config/envfile.go:22-56 | the environment after the lines have been read |
| EnvHost.Host.LoadDefaultLocalEnv | internal/config/envfile.go:12-18 | the file that is read is the one the environment names, or the default one |
| EnvFile.BindingIsReadBack | internal/config/envfile.go:32-52 | a written line is read back as its key and value if and only if the key is bare and the value trimmed and unquoted |
| EnvFile.LineIsRead | internal/config/envfile.go:32-52 | a line sets its key to its value whatever white space stands around the two and whatever quotes around the value |
| EnvFile.OtherLinesSetNothing | internal/config/envfile.go:32-48 | a comment, a line without an equals sign and a line without a key set nothing |
| EnvFile.LoadedIsFirstWins | internal/config/envfile.go:32-54 | every variable gets its first assignment unless it is already set |
| EnvFile.ScannedBindings | internal/config/envfile.go:32-41 | the loader and the updater read the same assignments from a file |
| EnvLens.LoadAfterUpsert | cmd/mnemosynectl/bootstrap.go:533-574 | loading after an update gives the old first-wins bindings overridden by the updates |
| EnvFile.MissingIsInOrder | cmd/mnemosynectl/bootstrap.go:562-572 | the keys that are appended are exactly those that no line assigns, sorted, each once |
| EnvLens.UpsertBindings | cmd/mnemosynectl/bootstrap.go:548-572 | updated variables change where they stand and missing ones are appended in order |
| EnvRepeat.UpsertKeepsRest | cmd/mnemosynectl/bootstrap.go:548-574 | comments, blank lines and the lines of other variables survive unchanged and in order, up to a carriage return that reading drops and the empty lines at the end |
| EnvRepeat.LastUpdateCounts | cmd/mnemosynectl/bootstrap.go:533-574 | of two updates of the same variables only the second shows in the file if and only if no line that is not rewritten keeps a carriage return |
| EnvRepeat.RepeatIsIdentical | cmd/mnemosynectl/bootstrap.go:533-574 | repeating an update leaves the file identical if and only if no line that is not rewritten keeps a carriage return |
| EnvRepeat.RepeatCanDiffer | cmd/mnemosynectl/bootstrap.go:533-574 | a file that an empty update changes each of two times |

## Left out

- HTTP handlers, web pages, terminal rendering, event streams, daemon control, model gateways, mail, GitHub and web
  search clients, the scenario harness, the skills runner and the recall service are not part of this model.
- Failed and torn file writes, damaged JSON and unreadable directories: a write happens whole or, in a crash, not at
  all, and encoding followed by decoding is the identity. The one place where that is not so is modelled: an empty
  metadata map of a task comes back as nil.
- White space and letter case outside ASCII: trimming and case folding work on ASCII bytes only.
- Concurrency: each method of a store holds one lock and is one step. The claims about idempotency keys and about
  approvals in the chat are for callers that wait for each other, except that background chat tasks may end at any
  time.
- Floating point rounding, saturation of very long time spans, and overflow of counters.
- Checks for nil receivers and for components that are not configured, and listing and reading single records
  (`LatestCards`, `List`, `Get`), which only read.
- Journal time stamps, and the `List` order of actions and approvals.
- MemoryStore.Store.CreateCard: takes one clock reading per call, and different calls may share one; the metadata and
  the content of a card are opaque, but for the topic, text and summary entries that the upgrade reads.
- Consolidation.Consolidator.PromoteCandidates: uses one clock reading for all its updates, where the code reads the
  clock again for each.
- UpgradeEngine.UpgradeEventsToFacts: uses one clock reading for all it creates, and the fact id ends in any function of
  the topic, of fixed length, instead of SHA-1.
- Requests.WritesAreTold: is for profiles and paths without the byte 1F that joins the parts, and so are the statements
  on reads and commands, whose arguments moreover are without the byte 00.
- MemoryCrash.RunStaysRecoverable: asks each step to be steady, which `MemoryCrash.StepIsRepairableIff` shows to be
  exact for single writes and rebuilds; of a decay pass it asks each of its writes to lose no file of another card.
- MemoryCrash.EndpointsSurviveCrashes: asks each rebuild, complete or cut off, to meet a condition, which
  `MemoryCrash.RebuildKeepsLinkedIff` and `MemoryCrash.RebuildCutKeepsLinkedIff` show to be exact.
- MemoryCrash.RebuildCutIsRecoverableIff: is for rebuilds that write in orders in which no later id spells an earlier
  one, and so is `MemoryCrash.RebuildCutKeepsLinkedIff`.
- MemoryDecay.StoreDecayIgnoresSchedule: is for cards that nothing updates or touches in between, with one base rate
  and passes at non-decreasing instants, since the curve depends on them.
- MemoryDecay.ZeroIsArchived: is for passes that are not negligible, positive rates and usable thresholds, without
  which it is false.
- Executor.ActionExecutor.ExecuteShell: resolving the command and the work directory, and each attempt with its
  output, are parameters; a crash between an effect and the record of it is not modelled, and neither is the back-off
  delay.
- Executor.ActionExecutor.ExecuteFile: covers reads and writes by one method, since the two loops differ only in the
  outcome and its report; whether an I/O error may pass is part of the outcome.
- Approvals.RootGrantsAreConserved: tokens are any non-empty strings given by the caller of `Approve`, so they may
  repeat; when several approvals match, the one met first is used.
- Runtime.RunIsSound: is for approvals that find no other task active, which `Runtime.ApproveOutcome` shows to be
  exactly the condition; `Runtime.RunKeepsTasks` says what holds without it.
- Runtime.RunKeepsTasks: the skill that planning suggests and the printed run counter are arbitrary functions, and
  identifiers are the clock reading, which moves on with every creation.
- Runtime.StepKeepsSound: for an approval it holds only while no other task is active, which `Runtime.ApproveOutcome`
  shows to be exactly the condition.
- Scheduler.NeverTwoOpen: lets only evaluations and finishing tasks happen, because a caller that submits a
  consolidation task by itself, or approves one while it waits, is not held back by the scheduler.
- ChatService.Service.Send: leaves out the stored messages, the memory events and the working set except for its
  source references; routing, the text of a preview, the question a reply ends in and the sources of recall are
  parameters, and the effect of a skill run on the runtime is a step of its own.
- ChatRuns.ApprovalIsOfLastPreview: assumes that recall cites no goal and that no background task ends in a session
  with a pending preview; `ChatRuns.ApprovalCarriesPreviewIff` is the exact statement for every history.
- ChatService.Service.LoadSessionState: sessions with different ids are taken to have different files.
- EnvHost.Host.LoadEnvFile: leaves out lines beyond the limit of the scanner and variables the system refuses to set.
- EnvLens.LoadAfterUpsert: is for keys and values that survive being written and read, which
  `EnvFile.BindingIsReadBack` shows to be exactly those of one line with a bare key and a trimmed, unquoted value.
