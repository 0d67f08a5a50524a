# Verification of the niche and metro collection pipeline

These Dafny modules model the parts of the repository where order, concurrency or arithmetic make
correctness hard to see, and prove what those parts promise.

* **Collection engine** (`CollectionTypes`, `TaskGraph`, `LevelChains`, `TaskIds`, `CollectionPlan`,
  `PlanCoverage`, `PlanPayloads`, `ExecutionState`, `TopResults`, `MapsProfiles`, `MapsMeaning`,
  `Materialize`, `DependentTargets`, `DependentProfiles`, `TargetOverlap`, `Replay`, `Executor`,
  `Confluence`, `Progress`, `Assembler`, `Pipeline`). A validated request becomes a plan;
  the plan's tasks are levelled and run concurrently, level by level; the second phase is built from
  the results of the first; everything recorded is handed out to one bucket per metro and category.
  The run is a transition system whose provider outcome is an arbitrary function of the task, and
  whose steps are dispatching a task, recording its outcome, passing a level's barrier and starting
  the second phase. The graph, planning, recording, search, materialising and assembling code is
  imperative, as in the source, and each method is tied to a function or predicate that the
  theorems are about. What those functions compute is stated a second time over the fields of tasks,
  rows and items alone (`PlanPayloads`, `MapsMeaning`, `DependentProfiles` and the lemmas named
  `...Meaning`), and proved to be the same.
* **Shared caches** (`NicheCache`, `LocationBridge`, `PlaceNames`, `LocationCache`). The niche
  expansion cache and the location bridge are classes whose methods are the sections between two
  awaits; a transition system over any number of callers says how those sections interleave.
* **Metro matching** (`MetroMatching`, `MetroVerdicts`, `MetroEnrichment`). The verdict on a metro's
  location code, and the run that writes the selected codes back to the metro table.
* **Scores** (`Similarity`, `StrategyProjection`, `Normalization`, `Scoring`). Cosine similarity and
  the projection it feeds, percentile ranks, the demand score and the gated opportunity score.
* **Snapshots** (`Snapshots`). The versioned snapshot table and its two writers.
* **Keyword volume** (`KeywordVolume`). Collecting the best volume and price of each keyword over
  several location codes.

`Containers` holds options, insertion-ordered dictionaries and the facts about sequences that the
others share. `dafny verify dfyconfig.toml` checks everything.

Six results say that the code does not keep a promise unconditionally; each is proved as an
if-and-only-if over a condition that can be checked beforehand, next to a concrete input:

* Dedup keys are built by joining with colons. Every metro gets its first five targets, whatever the
  base phase comes to, exactly when nothing asks for targets, or no metro id is another id's
  `id:backlinks` and none, followed by a colon, starts with another id's `id:lighthouse:`
  (`TargetOverlap.TargetsNeverLostIff`, `TargetOverlap.ColonIdsCollide`). The backlinks half uses that a
  normalised domain holds no colon (`src/pipeline/domain_classifier.py:18`), so what follows
  `id:backlinks:` in an id is harmless; the lighthouse half is over an arbitrary URL key, and which of
  these ids the key of a real URL can spell is up to URL parsing.
* More search volume never lowers demand exactly when the click price is not negative, or the bonus
  for breadth and intent keeps the score at zero or at a hundred anyway
  (`Scoring.VolumeNeverHurtsIff`, `Scoring.NegativePriceInverts`).
* Scoring a component that was missing keeps the opportunity from falling exactly when the old score
  respects every cap that then applies, given a non-negative share
  (`Scoring.OnlyCapsCanLower`, `Scoring.NewComponentCanLower`).
* The projected score is monotone in similarity except across the value one, where fractions turn into
  percentages (`StrategyProjection.ProjectionMonotone`, `StrategyProjection.ScalesCanDisagree`); on
  cosines the exception cannot arise.
* Keyword prices depend on the order of rows exactly when a keyword has a negative price, a row
  without one, and no positive price (`KeywordVolume.OrderIrrelevantIff`,
  `KeywordVolume.PriceOrderMatters`).
* A metro's match depends on the order of the catalog exactly when the rows its existing codes select
  differ in code or name (`MetroMatching.CatalogOrderIrrelevantIff`,
  `MetroMatching.ExistingCodesFollowOrder`).

The snapshot writers are proved twice. `supabase/migrations/007_kb_schema.sql:39` makes `superseded_by`
a foreign key that is checked at every update, while both writers set it to an id they insert only
afterwards. On a table that checks this key a write completes exactly when its entity has no current
row, so no entity ever gets a second version (`Snapshots.CheckedHistories`). The chain results are
about a table that does not check it.

## Model

| member | source | states |
|---|---|---|
| CollectionTypes.BuildCollectionRequest | src/pipeline/types.py:111-176 | succeeds exactly when some valid request is what stripping, lower-casing and int() make of the input and the profile is one of the two names, and then returns that request; otherwise raises |
| TaskGraph.ValidateTaskGraph | src/pipeline/task_graph.py:10-25 | passes exactly when ids are unique, every dependency is known and no task reaches itself; an unknown dependency is named in the error before any cycle is looked for |
| TaskGraph.DependencyLevels | src/pipeline/task_graph.py:28-57 | raises exactly when the list cannot be scheduled (with unique ids and known dependencies: when there is a cycle); otherwise the levels are a permutation of the tasks, every dependency lies in a strictly earlier level, and every task of a later level needs one of the level just before |
| TaskGraph.CountDependencies | src/pipeline/task_graph.py:30-39 | the in-degree of a task counts its dependency occurrences, repeats included, and the adjacency lists hold the same occurrences grouped by dependency |
| TaskGraph.Relax | src/pipeline/task_graph.py:48-53 | relaxing a finished task lowers each child's counter by the child's number of occurrences and enqueues a child exactly when that brings its counter to zero, once |
| TaskGraph.ProcessLevel | src/pipeline/task_graph.py:42-53 | after a level, the next queue holds, without repeats, exactly the unplaced ids with nothing pending, and each of them depends on the level just placed |
| TaskGraph.PendingAfter | src/pipeline/task_graph.py:46-53 | finishing one task accounts for exactly its own occurrences in every other task's pending count |
| TaskGraph.Complete | src/pipeline/task_graph.py:54-57 | the visited count equals the task count exactly when the list is schedulable |
| TaskGraph.StuckHasCycle | src/pipeline/task_graph.py:54-57 | a non-empty set of ids in which every id depends on another of the set yields a concrete cycle |
| TaskGraph.Pigeonhole | src/pipeline/task_graph.py:54-57 | a walk longer than the set it stays in visits some id twice |
| TaskGraph.PathDescends | src/pipeline/task_graph.py:42-55 | along any dependency path that starts at a placed id, the end is placed in a strictly lower level |
| TaskGraph.CycleMemberNeverPlaced | src/pipeline/task_graph.py:42-55 | no member of a dependency cycle is ever put in a level |
| LevelChains.LevelIsLongestChain | src/pipeline/task_graph.py:42-55 | a task is in level k exactly when its longest dependency chain has k + 1 tasks |
| LevelChains.LevellingIsUnique | src/pipeline/task_graph.py:42-55 | any two levellings put each task in the same level |
| LevelChains.LevellingExists | src/pipeline/task_graph.py:28-57 | every list with unique ids, known dependencies and no cycle has a levelling |
| TaskIds.PaddedRoundTrip | src/pipeline/collection_plan.py:45-45 | reading a zero-padded number back gives the number, however many digits it has |
| TaskIds.PaddedShape | src/pipeline/collection_plan.py:45-45 | a padded number consists of digits, at least five of them, and has no leading zero if there are more |
| TaskIds.TaskIdsDistinct | src/pipeline/batch_executor.py:123-131 | ids with different numbers differ inside each phase, and no id occurs in both phases |
| CollectionPlan.Chunked | src/pipeline/collection_plan.py:163-171 | draining the iterator yields the batches that the next two rows characterise |
| CollectionPlan.ChunksPartition | src/pipeline/collection_plan.py:163-171 | batches concatenate back to the items, each holding between one and the limit |
| CollectionPlan.ChunksCount | src/pipeline/collection_plan.py:163-171 | the number of batches is the item count divided by the limit, rounded up |
| CollectionPlan.SelectMapsKeyword | src/pipeline/collection_plan.py:174-177 | returns a keyword of tier one with none of tier one before it, or the first keyword if there is none of tier one |
| CollectionPlan.BuildCollectionPlan | src/pipeline/collection_plan.py:24-160 | planning never raises, its closing validation always passes, and the plan is the one that the following rows characterise: which tasks and templates it has, in what order, and what each carries |
| CollectionPlan.IndependentIsSchedulable | src/pipeline/collection_plan.py:159-160 | the base tasks of every plan have unique ids and can be scheduled |
| CollectionPlan.BaseTaskAt | src/pipeline/collection_plan.py:37-90 | base tasks are numbered from one without gaps, depend on nothing and belong to metros of the request |
| CollectionPlan.BaseTaskCount | src/pipeline/collection_plan.py:37-90 | a plan makes, per metro, one call for each batch of 700 keywords, one for each SERP keyword, and one maps call if there are any |
| CollectionPlan.OneMapsTask | src/pipeline/collection_plan.py:78-89 | no metro has two maps tasks |
| CollectionPlan.TemplateSlot | src/pipeline/collection_plan.py:91-157 | every template belongs to a metro of the request and has the dedup key of its metro and type |
| PlanCoverage.PlanCoversKeywords | src/pipeline/collection_plan.py:37-90 | for each metro the volume tasks ask about every keyword once and in order, the organic tasks about the SERP keywords (the first six in interactive runs), the maps task about the chosen one; nothing is asked about any other metro |
| PlanPayloads.BaseTaskPayloads | src/pipeline/collection_plan.py:47-88 | every base task carries the location code of the metro it is for, an organic task also that metro's principal city (null if it has none), and no base task has a dedup key |
| PlanPayloads.PlanBatchIndices | src/pipeline/collection_plan.py:44-58 | the batch indices of a metro's volume tasks are 1, 2, ... up to the number of 700-keyword batches, in plan order |
| PlanPayloads.SerpKeywordsMeaning | src/pipeline/collection_plan.py:39-41 | the SERP keywords are the transactional or commercial ones of tier one or two, in order: all of them in full runs, the first six in interactive runs |
| PlanPayloads.PlanTemplateTypes | src/pipeline/collection_plan.py:78-157 | a metro's templates are, in this order, profile and listings in interactive runs, and backlinks, lighthouse, profile, reviews and listings in full runs; without SERP keywords it has none |
| PlanPayloads.TemplateNames | src/pipeline/collection_plan.py:94-156 | every template spells its metro and type in its own id and in its dedup key |
| PlanCoverage.TemplatesWaitForTheirSource | src/pipeline/collection_plan.py:91-157 | each template waits for the first planned task of its own metro that it reads from (organic for backlinks and lighthouse, maps for the others), and its payload names that kind of task |
| ExecutionState.State.FinishTask | src/pipeline/batch_executor.py:229-275 | how every dictionary, the call counter and the failures change after a timeout, an exception, an error response or an answer; an answer stores exactly the objects of the response, in their order and as often as they occur, whether it is a list or a single value |
| ExecutionState.RowsAreTheObjects | src/pipeline/batch_executor.py:272-274 | the rows stored are those at increasing positions of the response that hold all its objects; a single object is stored as one row, and anything else as none |
| ExecutionState.TimeoutMeaning | src/pipeline/batch_executor.py:238-256 | a keyword volume or review task times out after 20 seconds and any other after 12, and the message says so |
| Replay.RecordAllLook | src/pipeline/batch_executor.py:229-275 | after any number of finished tasks with distinct ids each has exactly the entries its own outcome calls for, others are untouched, and the call counter equals the number of recorded categories |
| Replay.ExactlyOneFate | src/pipeline/batch_executor.py:229-275 | a finished task either has a result and no failure record, or no result and exactly one failure record |
| Replay.RecordAllConfluent | src/pipeline/batch_executor.py:229-275 | finishing the same tasks in two orders gives equal dictionaries and counters and the same multiset of failures |
| TopResults.TopOrganicForMetro | src/pipeline/batch_executor.py:307-386 | returns the first so many values that the items of the metro's completed organic tasks name, tasks in plan order, then rows, then items: non-empty normal forms of domains that are no aggregators, or URLs with different keys whose domain (else the URL itself) is no aggregator's; none is invented or skipped unless the limit was reached |
| TopResults.TopOrganicFindsFirst | src/pipeline/batch_executor.py:307-386 | the searched function is that list, stated over plan, rows, items, the normal form of domains and the aggregators alone |
| TopResults.FirstByKeyDistinct | src/pipeline/batch_executor.py:307-363 | keeping first occurrences leaves pairwise different keys, loses no key and invents no candidate |
| TopResults.TopOrganicMeaning | src/pipeline/batch_executor.py:307-386 | at most the limit is returned, only actual candidates are, and every distinct key is represented unless the limit was reached |
| MapsProfiles.TopMapsProfilesForMetro | src/pipeline/batch_executor.py:411-482 | the search returns the first profiles with distinct identities over the answered maps tasks, in the order they were answered |
| MapsProfiles.SortByRankCorrect | src/pipeline/batch_executor.py:485-511 | ranking is a stable sort: a permutation with ranks increasing, unranked items last, and equal ranks in their old order |
| MapsMeaning.RankMeaning | src/pipeline/batch_executor.py:502-511 | the rank of an item is rank_group, else rank, else position, else rank_absolute, whichever is first to read as a positive integer |
| MapsMeaning.TopRankedMeaning | src/pipeline/batch_executor.py:485-499 | the best-ranked items are the first ones in rank order: smaller ranks first, unranked ones last, ties as they stand; no more than the limit and no fewer than there are |
| MapsMeaning.ItemProfileMeaning | src/pipeline/batch_executor.py:443-478 | an item gives a profile with the trimmed text of its own cid, place id and first non-empty name field and the row's query, and none exactly when it has none of the four |
| MapsMeaning.RowProfileMeaning | src/pipeline/batch_executor.py:422-442 | a row without items gives one profile for its own query, if it has one; any other row gives those of its best-ranked items, in rank order |
| MapsMeaning.MapsTasksMeaning | src/pipeline/batch_executor.py:419-421 | the tasks searched are exactly the answered maps tasks of the metro, in the order they were answered |
| MapsProfiles.BestProfileIsFirstCandidate | src/pipeline/batch_executor.py:403-408 | the profile used is the very first candidate, if there is one |
| MapsProfiles.ProfileMode | src/pipeline/batch_executor.py:443-465 | a profile is identified by its cid, else its place id, else its name, else the query, and its key spells out which |
| MapsProfiles.SameKeyMeansSameIdentity | src/pipeline/batch_executor.py:443-465 | two profiles share a dedup key exactly when they are identified in the same way by the same identifier, so keys of different kinds never collide |
| MapsProfiles.FirstMapsKeywordForMetro | src/pipeline/batch_executor.py:389-400 | returns the first usable keyword over all rows of all answered maps tasks of the metro, or none |
| MapsMeaning.FirstMapsKeywordMeaning | src/pipeline/batch_executor.py:389-400 | that keyword is the text of the first non-empty keyword field over the rows of those tasks, and there is none exactly when all are empty |
| Materialize.MaterializeDependentTasks | src/pipeline/batch_executor.py:75-200 | the tasks built and the keys marked are those of the function the next rows are about, whatever the state; the rest of the state is unchanged |
| Materialize.MaterializedIsDeduplicated | src/pipeline/batch_executor.py:85-200 | no two materialised tasks share a dedup key, all their keys are marked, and they are numbered from one and wait for nothing |
| Materialize.MaterializeTwice | src/pipeline/batch_executor.py:85-87 | a second materialisation, on any state that remembers the first one's keys, builds nothing and marks nothing |
| Materialize.EmptyKeyNeverMarked | src/pipeline/batch_executor.py:85-198 | an empty dedup key is treated as none: it is never marked |
| Materialize.MaterializedBounded | src/pipeline/batch_executor.py:85-200 | a template yields at most five tasks when it asks for targets and at most one otherwise |
| Materialize.EmissionsAgree | src/pipeline/batch_executor.py:75-200 | what a template asks for depends only on results, categories and the answer order of the metro's maps tasks |
| DependentTargets.PlannedRunTargets | src/pipeline/batch_executor.py:155-195 | when nothing asks for targets or the metro ids are apart, and normalised domains hold no colon, the backlinks targets of each metro are exactly the first five distinct non-aggregator domains its organic items name, its lighthouse targets the first five URLs with different keys, and interactive runs have none, from any state without marked keys |
| DependentProfiles.PlannedRunProfiles | src/pipeline/batch_executor.py:90-154 | under the same condition each metro with SERP keywords gets exactly one listings task, for the first keyword of its maps rows, and one profile task, in full runs also one review task, exactly when its maps results hold a profile, made from the first one found and with the metro's location code |
| DependentProfiles.ProfilePayloadMeaning | src/pipeline/batch_executor.py:93-126 | every field of the payload made from a profile: reviews ask by the best identifier, profile data by the name, else by the query it was found with, else by that identifier; the retrieval modes follow the task type |
| DependentProfiles.LocationCodeMeaning | src/pipeline/batch_executor.py:82-89 | the location code is that of the last metro of the request with the id |
| TargetOverlap.TargetsNeverLostIff | src/pipeline/batch_executor.py:155-195 | for every request: all metros get their targets under all outcomes, all completion orders, all URL keys and all domain normalisers that leave no colon, exactly when nothing asks for targets or the metro ids are apart |
| TargetOverlap.OverlapLosesTargets | src/pipeline/batch_executor.py:155-195 | for any two metros whose ids are not apart there is a site, with a colon-free domain, that all organic rows may name and that leaves one of the two without its targets in every completion order |
| DependentTargets.KeySpacesDisjoint | src/pipeline/batch_executor.py:156-177 | when neither metro id is the other's backlinks key or continues the other's lighthouse key after a colon, no dedup key belongs to two metros or two task types; for types without targets this needs no condition |
| DependentTargets.KeySpacesMeetIff | src/pipeline/batch_executor.py:156-177 | the keys of two metros, backlinks keys ending in colon-free domains, can meet exactly when one id reaches the other in that way |
| DependentTargets.DomainsColonFree | src/pipeline/domain_classifier.py:10-21 | when normalising leaves no colon, no backlinks target of any metro holds one |
| TargetOverlap.ColonIdsCollide | src/pipeline/batch_executor.py:156-159 | in a valid request for metros a:backlinks and a, after any run of the base phase whose rows all name the domain gbp_info, metro a has exactly one backlinks target and gets none |
| TargetOverlap.LongerIdsAreApart | src/pipeline/batch_executor.py:156-159 | the ids a and a:backlinks:x are apart, although the second continues the first's backlinks key |
| Executor.BarrierAndCap | src/pipeline/batch_executor.py:203-247 | in every reachable state at most eight tasks are in dispatch, and every dispatched or finished task has all its dependencies finished before it |
| Executor.BehaviourKeeps | src/pipeline/batch_executor.py:57-70 | along every behaviour the shared state is that of replaying the finished tasks, with the second phase built from all base tasks |
| Confluence.SameDependentTasks | src/pipeline/batch_executor.py:57-70 | the second phase is the same list, ids included, whatever order the base tasks finish in |
| Confluence.CompletedRunsAgree | src/pipeline/batch_executor.py:42-72 | any two completed runs of one plan with the same outcomes agree on tasks, results, costs, categories and call count, and on the multiset of failures |
| Progress.NoDeadlock | src/pipeline/batch_executor.py:203-247 | every reachable state that is not completed has a next step |
| Progress.BehavioursAreBounded | src/pipeline/batch_executor.py:203-247 | no run takes more than three steps per base task and possible dependent task, plus one |
| Progress.BehaviourCompletes | src/pipeline/batch_executor.py:42-72 | every behaviour, from any reachable point, extends to one that ends in a completed state |
| Progress.RunCompletes | src/pipeline/batch_executor.py:42-72 | every well-planned world has a completed run |
| Assembler.AssembleRawCollectionResult | src/pipeline/result_assembler.py:32-68 | raises exactly when a successful task names a metro the request lacks; otherwise every bucket of every metro holds the enriched rows of its own tasks in recording order, and the meta data sums costs and copies calls and failures |
| Assembler.AppendCategory | src/pipeline/result_assembler.py:71-92 | appending extends the bucket of its category and leaves the seven others alone |
| Assembler.WithTaskProvenance | src/pipeline/result_assembler.py:95-110 | rows of profile and review tasks get their payload's value in each of eight named fields that is null or empty in the row, where the payload has one; all other fields, all items and all rows of other categories stay |
| Assembler.EnrichMeaning | src/pipeline/result_assembler.py:95-110 | a field changes exactly when it is a provenance field, blank in the row and present in the payload, and then takes the payload's value |
| Pipeline.PlannedIsWellPlanned | src/pipeline/collection_plan.py:24-160 | a plan built from a validated request satisfies everything the run theorems assume |
| Pipeline.EveryTaskAccountedFor | src/pipeline/batch_executor.py:42-72 | in a completed run every executed task of both phases has a result or exactly one failure record, never both |
| Pipeline.CallsAreCounted | src/pipeline/batch_executor.py:263-264 | the call counter of a completed run is the number of tasks with a recorded category and the number of tasks the provider answered |
| Pipeline.NothingLostNothingInvented | src/pipeline/result_assembler.py:47-68 | each assembled bucket is, as a multiset, exactly what the executed tasks owe it: for a successful task of its metro and category all objects of its answer, enriched from its payload, and for any other task nothing; and the total cost is the sum of the costs of the successful tasks |
| Pipeline.AssemblyFindsEveryMetro | src/pipeline/result_assembler.py:47-57 | assembling a completed planned run never raises |
| Pipeline.ProfileReachesRows | src/pipeline/result_assembler.py:95-110 | every identifier of the maps profile a task was made from arrives in each of the task's rows that does not bring its own |
| Pipeline.ReachableCalls | src/pipeline/batch_executor.py:263-263 | at every moment the calls made are bounded by the base tasks plus what the templates may ask for |
| Pipeline.PlannedCallBound | src/pipeline/collection_plan.py:24-160 | M metros, K keywords and E > 0 eligible ones cost at most M (ceil(K / 700) + E + 14) calls in full runs and M (ceil(K / 700) + min(E, 6) + 3) in interactive ones |
| NicheCache.NicheExpansionCache.Enter | scripts/benchmarks/run_pilot.py:1559-1566 | the first section returns the cached value, else the task in flight, else registers the new task |
| NicheCache.NicheExpansionCache.AfterFailure | scripts/benchmarks/run_pilot.py:1568-1574 | a failed waiter removes the entry of its niche only if it is still its own task |
| NicheCache.NicheExpansionCache.AfterSuccess | scripts/benchmarks/run_pilot.py:1576-1580 | a successful waiter stores the value and removes the entry only if it is still its own task |
| NicheCache.SingleFlight | scripts/benchmarks/run_pilot.py:1559-1580 | in every interleaving a niche has at most one expansion task that is unfinished or succeeded |
| NicheCache.CallersAgree | scripts/benchmarks/run_pilot.py:1559-1580 | all successful calls for a niche return the same value, that of its one successful task |
| NicheCache.NeverEvictsRunning | scripts/benchmarks/run_pilot.py:1568-1580 | no step removes or replaces the entry of a task that is still running |
| NicheCache.FailureAllowsRetry | scripts/benchmarks/run_pilot.py:1568-1574 | a call after a failure was cleaned up never waits for the failed task again |
| NicheCache.NobodyIsStuck | scripts/benchmarks/run_pilot.py:1559-1580 | at every point a caller that has not looked yet can look, a running task can end either way, and whoever waits for a finished task receives its value or its failure |
| LocationBridge.ResolveDataforseoLocation | src/research_agent/places.py:163-229 | over coded rows of a compatible country, the result is the first row that is the city with its state part in the full name (high), else the first that is the city (high), else the first that contains it (medium), else low without a code if some row's name occurs in the full name, else nothing |
| LocationBridge.ScanFindsLeader | src/research_agent/places.py:179-219 | the scan ends with a code exactly when some coded row scores above zero, and then with the code and score of the first row no coded row scores above |
| LocationBridge.ScoreTellsKind | src/research_agent/places.py:195-209 | the score of a row tells which of the four kinds it is: 110, 100, 75 and 55, or none of them |
| LocationBridge.ResolveIsAnswer | src/research_agent/places.py:173-229 | the scan gives the same answer as looking for the kinds one after the other |
| LocationBridge.ResolveMeaning | src/research_agent/places.py:221-229 | the leading row alone decides the resolution, and there is one exactly when some coded row scores |
| LocationBridge.PartsOfStripped | src/research_agent/places.py:182-197 | stripping a name before splitting it at commas, as only one of the two resolvers does, changes no part |
| PlaceNames.PartsMeaning | src/research_agent/places.py:191-191 | the parts of a name are the trimmed non-empty pieces between its commas, in order |
| PlaceNames.SplitJoins | src/research_agent/places.py:191-191 | splitting at commas gives pieces without commas that join back to the name |
| LocationBridge.IndexListsRows | src/research_agent/places.py:330-337 | under each key the index lists exactly the rows with that primary name, in row order |
| LocationBridge.IndexAgreesWithScan | src/research_agent/places.py:353-393 | the index finds a code exactly when the scan over the same rows is highly confident, and then the same code, ties included |
| LocationBridge.IndexedIsAnswer | src/research_agent/places.py:353-393 | the indexed lookup finds the first row that is the city with its state in the full name, else the first that is the city, else nothing |
| LocationCache.DataForSEOLocationBridge.AfterLoad | src/research_agent/places.py:319-351 | a load replaces the cached rows by the city rows of the answer, in order, and index and time with them; an error response only moves the time; an exception changes nothing |
| LocationCache.DataForSEOLocationBridge.Resolve | src/research_agent/places.py:353-393 | the lookup loop gives the indexed resolution of the agreement theorem, which is also the answer described for the indexed lookup |
| LocationCache.OneLoadAtATime | src/research_agent/places.py:308-318 | at most one load is in flight, and it was started with none returned before it or a full TTL after the last one |
| LocationCache.NobodyIsStuck | src/research_agent/places.py:308-351 | at every point an idle caller can call, one that wants the lock gets it unless another is loading, and a load can end with any answer, which frees the lock |
| LocationCache.IndexInSync | src/research_agent/places.py:308-351 | at every observable point the index is that of the cached rows, so a lookup finds exactly what a scan is sure of |
| LocationCache.ReloadsExactlyWhenOverdue | src/research_agent/places.py:308-318 | a call goes to the lock, and under the lock starts a load, exactly when none has returned yet or the last one returned 3600 seconds ago or more; otherwise it is served at once |
| LocationCache.LookupsAnswer | src/research_agent/places.py:353-393 | at every observable point a lookup finds the first cached row that is the city with its state in the full name, else the first that is the city |
| LocationCache.CityRowsFiltered | src/research_agent/places.py:324-328 | the rows kept are exactly the city rows of the response, in order |
| LocationCache.LoadsAreRateLimited | src/research_agent/places.py:308-351 | n + 1 loads take at least n TTLs to return, for any number of callers |
| MetroMatching.Dedupe | scripts/explore/metro_dfs_readiness.py:477-486 | the result lists, in order and stripped, exactly the values that are first with their non-empty normal form; normal forms are pairwise different and none but the empty one is lost |
| MetroMatching.HitsForCityTokens | scripts/explore/metro_dfs_readiness.py:342-358 | the loop maps each city to its catalog rows in the metro's states, without empty entries |
| MetroMatching.AllHitsMeaning | scripts/explore/metro_dfs_readiness.py:188-200 | the merged dictionary maps exactly the candidate cities that have rows to all their rows |
| MetroMatching.VerdictMeaning | scripts/explore/metro_dfs_readiness.py:171-259 | when a metro without codes is exact, strong, ambiguous or unmatched, each as an if-and-only-if over the rows its candidate cities hit |
| MetroMatching.VerdictIsUnique | scripts/explore/metro_dfs_readiness.py:188-259 | an exact or strong verdict selects a row its city hits, and every row any candidate city hits has the selected code |
| MetroVerdicts.ExistingCodesMeaning | scripts/explore/metro_dfs_readiness.py:145-186 | a metro with codes is already ready exactly when some catalog row has one of its codes, one of its states and the normal form of one of its principal or whole cities, and then gets the code and name of the first such row; otherwise its codes are invalid and nothing is selected |
| MetroVerdicts.FreshVerdictMeaning | scripts/explore/metro_dfs_readiness.py:188-259 | the verdict on a metro without codes, with the selected city and row, over the catalog and the metro's columns alone |
| MetroMatching.CatalogOrderIrrelevant | scripts/explore/metro_dfs_readiness.py:129-259 | permuting the catalog never changes a status, and changes nothing at all for metros without codes |
| MetroMatching.CatalogOrderIrrelevantIff | scripts/explore/metro_dfs_readiness.py:145-169 | reordering the catalog cannot change a metro's match exactly when the rows its existing codes select agree on code and name |
| MetroMatching.ExistingCodesFollowOrder | scripts/explore/metro_dfs_readiness.py:145-169 | a metro with two compatible codes whose selected row is the catalog's first |
| MetroEnrichment.DedupeCodes | scripts/explore/enrich_metro_dfs_codes.py:337-348 | the result lists, in order, exactly the first occurrences: no code is lost or repeated |
| MetroEnrichment.SelectCandidates | scripts/explore/enrich_metro_dfs_codes.py:121-139 | the candidates are the first matches, as many as the limit allows, that are exact, or are strong while strong ones are included and the metro is approved with the selected code |
| MetroEnrichment.WrittenCodesMeaning | scripts/explore/enrich_metro_dfs_codes.py:283-290 | the codes written are the selected one, first, then every other existing code once, in order |
| MetroEnrichment.ApplyCandidates | scripts/explore/enrich_metro_dfs_codes.py:167-191 | succeeds exactly when every candidate has a code and exactly one row, with all candidates written; otherwise fails at the first that does not, with those before it written, and that one too if it has a code |
| MetroEnrichment.MatchedRowsAreSingle | scripts/explore/enrich_metro_dfs_codes.py:304-316 | on a table where codes identify rows, candidates matched from it always pass the exactly-one-row check |
| MetroEnrichment.MatchIsFixpoint | scripts/explore/enrich_metro_dfs_codes.py:277-301 | writing the codes of an exact or strong match makes the metro match as already ready with the same code |
| MetroEnrichment.SecondMatching | scripts/explore/enrich_metro_dfs_codes.py:167-191 | after an apply run each applied metro is ready with its code and every other metro keeps its whole match |
| MetroEnrichment.SecondApplyRun | scripts/explore/enrich_metro_dfs_codes.py:121-139 | a run limited to n candidates leaves exactly the candidates after the first n for the next run |
| MetroEnrichment.UnlimitedRunLeavesNoExact | scripts/explore/enrich_metro_dfs_codes.py:121-191 | after an unlimited run no metro has an exact verdict |
| Similarity.FeatureVectorValues | src/clients/strategy_repository.py:238-257 | a vector is read exactly when it is not empty and all its values are readable, and then value by value; the features of an object are read in the order of their names |
| Similarity.FeatureOrderIrrelevant | src/clients/strategy_repository.py:242-243 | the order in which an object stores its features does not change the vector |
| Similarity.CauchySchwarz | src/clients/strategy_repository.py:260-268 | the squared dot product of two vectors of one length is at most the product of their squared norms |
| Similarity.CosineSimilarity | src/clients/strategy_repository.py:260-268 | there is a similarity exactly for two vectors of one length of which neither is empty or all zeros; times both norms it is the sum of the products of the coordinates |
| Similarity.CosineRange | src/clients/strategy_repository.py:260-268 | every similarity lies in [-1, 1] |
| Similarity.CosineSymmetric | src/clients/strategy_repository.py:260-268 | similarity is symmetric, and one for a non-zero vector with itself |
| Similarity.CosineScaled | src/clients/strategy_repository.py:260-268 | stretching a vector leaves every similarity as it is, and turning it around negates it |
| StrategyProjection.ProjectExpandConquer | src/domain/strategy_projection.py:147-225 | the score is a percentage, zero with exactly one warning or free of warnings, and each warning is an if-and-only-if on the columns of the row, the earlier ones first |
| StrategyProjection.ScoreMeaning | src/domain/strategy_projection.py:186-209 | a row without a warning scores three quarters of its similarity percentage and one quarter of half the competition it is spared, each kept in [0, 100] |
| StrategyProjection.ProjectionMonotone | src/domain/strategy_projection.py:186-209 | a city at least as similar and at most as contested never scores lower, exactly as long as its similarity is on the same scale |
| StrategyProjection.ScalesCanDisagree | src/domain/strategy_projection.py:186-187 | two rows where the more similar city scores lower |
| StrategyProjection.CosineScore | src/domain/strategy_projection.py:186-187 | a cosine is always scaled by one hundred and never cut from above |
| StrategyProjection.CosineMonotone | src/domain/strategy_projection.py:186-209 | on cosines the projection is monotone without condition |
| Normalization.ScaleMeaning | src/scoring/normalization.py:9-24 | scaling and inverse scaling are monotone, add up to 100, and reach 0 and 100 exactly at and beyond the ends of the range; over an empty range scaling gives 0 |
| Normalization.ScaleIsLinear | src/scoring/normalization.py:14-19 | between floor and ceiling scaling is linear |
| Normalization.BisectCounts | src/scoring/normalization.py:27-36 | bisecting the sorted cohort gives the number of values at or below the given one |
| Normalization.PercentileCounts | src/scoring/normalization.py:27-36 | the rank equals its counting form, which needs no sorting, with 50 for an empty and 0 or 100 for a single-valued cohort |
| Normalization.PercentileMonotone | src/scoring/normalization.py:27-36 | ranks lie in [0, 100], grow with the value, and are 100 exactly when no cohort value is larger |
| Normalization.PercentileOrderFree | src/scoring/normalization.py:27-36 | the order of the cohort does not matter |
| Normalization.RaisingOneMember | src/scoring/normalization.py:27-36 | when one cohort member grows, its rank does not fall and no other rank rises |
| Scoring.VolumeNeverHurtsIff | src/scoring/demand_score.py:12-34 | more volume never lowers demand, in any cohort, exactly when the click price is not negative, the bonus is not positive, or the bonus still gives a hundred at the lowest multiplier |
| Scoring.DemandMeaning | src/scoring/demand_score.py:12-34 | the demand score in full: percentile times 0.6 times a fifth of the price, at most 2, plus three times breadth and twice the transactional share, kept in [0, 100] |
| Scoring.DemandFollowsVolume | src/scoring/demand_score.py:12-34 | under that condition the better of two metros by volume never has the lower demand score |
| Scoring.DemandFollowsGrowth | src/scoring/demand_score.py:12-34 | under that condition a metro that gains volume, in its signals and in the cohort, never loses demand |
| Scoring.NegativePriceInverts | src/scoring/demand_score.py:24-25 | a metro and a cohort of two in which more volume scores strictly less |
| Scoring.OpportunityMeaning | src/scoring/composite_score.py:22-51 | the score lies in [0, 100], is at most 20 if a base component is below 5, at most 40 if one is below 15 and at most 50 if AI resilience is below 20, and is the weighted sum unless that is negative or a cap is what it equals |
| Scoring.OpportunityMonotone | src/scoring/composite_score.py:22-51 | with non-negative weights and one set of components, raising components never lowers the score, in spite of the caps |
| Scoring.NewComponentKeepsScoreIff | src/scoring/composite_score.py:31-51 | scoring a missing component keeps the score from falling exactly when the old score is at most every cap that then applies, and is zero or at most the new weighted sum |
| Scoring.OnlyCapsCanLower | src/scoring/composite_score.py:36-51 | when the new component's share is not negative, exactly when the old score is at most every cap that then applies |
| Scoring.NewComponentCanLower | src/scoring/composite_score.py:36-46 | a score of 100 that falls to 20 when a low base component is added |
| Scoring.WeightOrderIrrelevant | src/scoring/composite_score.py:31-34 | the order in which weights are listed does not matter |
| Scoring.WeightedSumMeaning | src/scoring/composite_score.py:31-34 | the weighted sum adds weight times score over the listed components, in any order, and nothing for a component without a score |
| Scoring.OpportunityFollowsVolume | src/scoring/composite_score.py:22-51 | from search volume through percentile and demand to the gated score: more volume in the same cohort never scores lower when volume cannot hurt demand |
| Snapshots.SnapshotTable.CreateSnapshot | src/clients/kb_persistence.py:106-165 | ends the entity's current row at the time of the write, if there is one, and appends an open current row valid from then on, with the next version; every other row stays; raises, leaving the table as it was, exactly when the successor key is checked, there is a current row and the new id names no row |
| Snapshots.SnapshotTable.BackfillReport | scripts/backfill_kb_entities.py:104-164 | ends the entity's current row likewise and appends an open current row valid from the creation of the report, with the version after the highest one of the entity |
| Snapshots.WriteReplaces | src/clients/kb_persistence.py:122-158 | what any completed write leaves of the rows before it, row by row |
| Snapshots.SnapshotTable.BackfillReports | scripts/backfill_kb_entities.py:81-164 | the loop writes the reports in order, with versions that follow the highest one, and links each to its own snapshot, up to the first write the checked key rejects |
| Snapshots.CheckedWriteCompletesIff | supabase/migrations/007_kb_schema.sql:39-39 | where the key is checked, a write with a new id completes exactly when its entity has no current row, and otherwise changes nothing |
| Snapshots.CheckedHistories | supabase/migrations/007_kb_schema.sql:39-39 | where the key is checked, after any attempts every history is the first write of its entity, version 1 and still current |
| Snapshots.CheckedNextWrite | supabase/migrations/007_kb_schema.sql:39-39 | where the key is checked, a further write completes exactly when none was attempted for its entity before |
| Snapshots.UncheckedRuns | src/clients/kb_persistence.py:106-158 | where the key is not checked every attempt completes, so the chain results are about all runs |
| Snapshots.WriteKeepsTrack | src/clients/kb_persistence.py:106-158 | one completed write of either kind extends the chain of its entity by one and leaves every other chain alone |
| Snapshots.RunsKeepChains | src/clients/kb_persistence.py:106-158 | on a table that does not check the successor key, after any sequence of writes of both kinds with new ids, every entity's history is exactly the chain of its own writes |
| Snapshots.ChainFacts | src/clients/kb_persistence.py:122-158 | in such a run versions are 1 to n, exactly version n is current, version v is superseded by the id of v + 1, and validity has no gap exactly where the later write starts when it is made |
| Snapshots.RulesAgree | scripts/backfill_kb_entities.py:129-138 | on every state of a run both rules give the next version as the chain length plus one |
| Snapshots.WritersInterchangeable | scripts/backfill_kb_entities.py:104-167 | which of the two writers makes a write does not change the table |
| Snapshots.InterruptedWritePartsRules | src/clients/kb_persistence.py:122-158 | after the update of a write whose insert never happens, one rule starts again at 1 and the other goes on counting |
| KeywordVolume.CollectKeywordVolume | scripts/benchmarks/run_pilot.py:1208-1265 | a keyword is stored exactly when some row of a successful call names it, in any case, with a volume or a price, and then with the highest positive volume of its rows and the price that the next rows describe; codes of calls with such rows are valid, all others fail with the reason of the response, each list in call order |
| KeywordVolume.UpdateSummarises | scripts/benchmarks/run_pilot.py:1243-1248 | updating with one more row keeps the stored value the peak of all rows so far |
| KeywordVolume.EveryCodeOnce | scripts/benchmarks/run_pilot.py:1222-1259 | every attempted code lands in exactly one of the valid list and the failures |
| KeywordVolume.OrderIrrelevantIff | scripts/benchmarks/run_pilot.py:1243-1248 | reordering the rows of a keyword cannot change what is stored exactly when a price is positive, or all prices are negative, or none is |
| KeywordVolume.PriceOrderMatters | scripts/benchmarks/run_pilot.py:1243-1248 | two rows that store a price of zero in one order and no price in the other |
| KeywordVolume.SameRowsSameVolumes | scripts/benchmarks/run_pilot.py:1220-1248 | collections of the same rows in any order store the same under that condition |
| KeywordVolume.CodeOrderIrrelevant | scripts/benchmarks/run_pilot.py:1220-1265 | without negative prices the order of location codes changes no stored value and only the order of the two code lists |

## Left out

- HTTP clients, Supabase and PostgREST, FastAPI, command lines, logging and real clocks: a provider call is an arbitrary outcome per task, a table is a sequence of rows, times are parameters.
- Text functions (domain, URL, place and city normalisation, lower-casing, stripping, int parsing) are arbitrary total functions; a general result assumes of them at most that a comma is not white space and that a normalised domain holds no colon.
- Floating point and rounding: scores, costs and similarities are exact reals, and `round(..., 6)` and `round(..., 2)` are not applied; the norms of the cosine are numbers whose squares are the sums of squares.
- Non-finite numbers, and the errors raised for them and for values of the wrong type, are ruled out by the types.
- Rows whose `items` field is present but not a list of objects.
- Task types outside the eight the engine dispatches, and the categories the assembler rejects.
- Cancellation of waiting coroutines, and a task that raises something other than an ordinary exception.
- Provider outcomes that depend on when a task is dispatched: an outcome is a function of the task.
- The order of `failures` and of dictionary entries after a concurrent run, which does depend on the interleaving.
- The exact reason texts of a match (kept as names), `asdict` and the summaries and reports.
- ApplyCandidates: does not model the five provenance columns written next to the codes, because matching never reads them, nor an update request that itself fails.
- The order in which the database returns rows without an `order` clause: a query with `limit(1)` takes the first match, which is the only match in every state of a run.
- The other constraints of `supabase/migrations/007_kb_schema.sql` on snapshots (primary key, one current row per entity) and a write that is rejected after its update.
- The entity upsert and the report columns copied into a snapshot: an entity is an id, the copied columns one payload.
- Gap-free validity for backfilled snapshots, which start at the report's `created_at`.
- The text of an error response in keyword volume collection, apart from the four phrases it is searched for.
- `strategy_profiles.py`, `organic_competition_score.py`, the extractors, the `scoring/v2` package and the other strategy projections: single-branch formulas over one row.
- `expand_keywords`, `normalize_niche` and `normalize_keyword`: normalising twice is not the same as normalising once, so nothing is claimed about distinctness after it.
- Row builders, seeding scripts, threshold classifiers and report rendering: field copying only.
