# Verification models for ARIA

Dafny models of the parts of ARIA with the most state, branching and concurrency, and proofs about them.
`dafny verify dfyconfig.toml` checks the whole project.

**The import reader.** `ReadPool` is the first half of `Read.consume` as a state machine: the steps of the
workers and of the main thread (take a task, look into the two caches, build, insert, take a task id, put,
leave, record, task_done) over the thread pool of `Executor`. A fixed map of sources stands for loading: a
location without a source fails to load. A document that declares no version gets the class of the importer
that builds it, as in the code. `ReadInvariants`, `ReadOrder` and `ReadTermination` prove what every step keeps
and that every schedule ends; `ReadTheorems` concludes, for every run, that the result list is the import
closure. `ResultMerge` specifies the second half: `merged` flags, merging and `PRESENTATION_CACHE`;
`PresentationMerge` is the merge in place, on dictionary objects. `BlockingRead` is the same reader over
`BlockingExecutor`.

What a read then comes to depends on its imports:

- Uniform imports (`ImportGraph.Uniform`): main names its class, and all importers of a document that names none
  are read in the class that it is read in. It is enough that all versioned documents have the class of main.
  Otherwise a document gets the class of whichever importer builds it first, and main can depend on the schedule
  (`ClassSchedules.ClassScheduleMatters`); what still holds then is that every schedule ends, that each location is
  built at most once by each worker, and that nothing is made up (`ReadTheorems.PooledNothingMadeUp`). Everything
  below is about uniform imports.
- Cyclic imports: by default all reads are cyclic. Every presenter imports its profile
  (extensions/aria_extension_tosca/simple_v1_0/presenter.py:73-76), `tosca.import_profile` is on unless it is
  turned off, and the profile's own files declare no version, so they inherit a presenter and import the profile
  again. Two theorems say what main shows at a path after such reads, cold and warm, under every schedule:
  - Where documents override each other, but not those in a cycle: main shows the last word among its own and those
    of its imports, recursively in list order (`Words.Word`). All cycles have to lie in a core, as the profile's files
    do, whose documents show one thing there or nothing, and which others import only where it is shown
    (`Words.Laid`). For default reads `Words.SilentProfileIsLaid` covers all paths at which the profile says nothing,
    and `Words.ProfileIsLaid` also those where the imported file of the profile speaks, as at its own `imports`. See
    `Words.ReadSays`, `ReadTheorems.SchedulesSay`, and for whole histories of the cache
    `ReadTheorems.PooledHistoriesAgree`.
  - Where no needed document disputes the path, also in a cycle: main shows what some needed document does
    (`CyclicReads.ReadShows`, `ReadTheorems.SchedulesAgree`). `CyclicReads.WarmIsColdIff` says exactly when a warm read
    shows there what a cold one does.

  Main never shows anything foreign (`CyclicReads.NothingMadeUp`, `CyclicReads.HistoryHolds`). What is left are disputes
  that involve a cycle: there the schedule can matter (`CyclicSchedules.CyclicScheduleMatters`); and what a cycle shows
  can be missing from a cache that a read left (`StaleCaches.CacheIsNotTransparent`).
- Acyclic imports: reads with `tosca.import_profile` off whose documents do not import each other in circles. For
  these, main ends as the recursive specification `ImportGraph.Merged` at every path, under every schedule, with
  any number of workers and over any history of the cache (`ReadTheorems.ReadIsMerged`,
  `CyclicReads.HistoryIsMerged`, `BlockingRead.ReadBlocking`).

**Merging.** `Documents` is the right-biased deep merge of nested dictionaries and its algebra; `DictMerge` is
`merge` on dictionary objects, proved to compute it without touching or sharing its source.

**Topology.** `Requirements` says what satisfying requirements does to a graph of nodes, capabilities and
relationships, branch by branch, and which target is meant, over positions and chains of types (`IsTarget`);
`RequirementProofs` proves conservation, first fit, a reason for every issue, and the well-formedness of an accepted
service; `Topology` is the handler that updates the graph in place. `Types` is the type tree they use. `HostSearch` is
the host search, and what it finds over the links; `NodeNames` is the naming and counting of new nodes and their
scaling.

**Smaller pieces.** `Functions` (intrinsic functions and coercion), `Instrumentation` (write-through
dictionaries), `Hierarchy` (the derivation validator), `Versions` (version keys).

Code that works in place is a class or a method with its loops, proved equal to a specification function;
the laws are lemmas about that function. Where the documentation of the code and the code differ, the model
follows the code:

- `Node.satisfy_requirements` overwrites its flag with each requirement, `Node.validate_capabilities` always
  returns False, and the service-level `all` stops at the first False. Success is therefore stated as "no issue
  reported".
- The documentation of `VersionString` says that numeric qualifiers are always greater than prefixed ones.
  This holds for prefixed numbers up to 9 (`Versions.NineIsTheBound`); `Versions.StageOrderExactly` says exactly
  when it holds for two given qualifiers.
- An invalid version is documented to be lesser than any non-zero version. It equals the plain zero version,
  and it is greater than "0-1" (`Versions.NullBelowNonZero`).
- The target capability name of a requirement is never compared, and every valid source type of a capability
  has to match, not one of them.
- Grouping matters when three documents are merged at a key where the first and third hold dictionaries and the
  second a leaf, unless the dictionary of the third absorbs that of the first (`Documents.MergeAssociativeIff`, with
  an input in `Documents.LeafBetweenDicts`).
- The host search has no memory of where it has been. It does not end exactly if it follows a chain of nodes without
  the host role, none of whose entries passed over leads to a host, that comes back to a node
  (`HostSearch.NeverEndsIff`); a cycle behind a host does no harm (`HostSearch.CycleBehindHostEnds`).

## Model

| member | source | states |
|---|---|---|
| Documents.OverridesByPrefix | aria/utils/collections.py:249-264 | b overrides a at a path exactly when some prefix of the path holds a value of b that does not meet a dictionary of a with a dictionary |
| Documents.MergeLookup | aria/utils/collections.py:232-265 | what every path of the merged dictionary holds: b's value where b overrides, two merged dictionaries, or what a had |
| Documents.MergeKeepsLeavesOfSource | aria/utils/collections.py:232-265 | every leaf path of b holds b's leaf after the merge |
| Documents.MergeIdempotent | aria/utils/collections.py:249-265 | merging the same dict_b a second time changes nothing |
| Documents.MergeSelf | aria/utils/collections.py:249-265 | merging a dictionary into itself changes nothing |
| Documents.MergeAssociativeIff | aria/utils/collections.py:249-265 | grouping three merges to the left or to the right gives the same exactly where no leaf of the second stands between dictionaries of the first and third, unless the third absorbs the first there |
| Documents.MergeAbsorbs | aria/utils/collections.py:249-265 | merging y into x gives y itself exactly when y has all keys of x, and again inside the dictionaries they share |
| Documents.LeafBetweenDicts | aria/utils/collections.py:249-265 | an input on which grouping matters: a leaf between dictionaries with different keys |
| Documents.MergeAssociative | aria/utils/collections.py:249-265 | merge is associative when no path is a dictionary in one document and a leaf in another |
| Documents.ConflictByPath | aria/utils/collections.py:252-263 | what strict mode rejects: some shared path with unequal values that are not both dictionaries |
| DictMerge.PyDict.MergeFrom | aria/utils/collections.py:232-265 | on objects, in any key order: dict_b and all it reaches stay as they are and share nothing with the result; the result is the functional merge; strict mode fails exactly on a conflict |
| DictMerge.PyDict.MergeKey | aria/utils/collections.py:250-264 | one key: recursion, keeping an equal value, conflict, or storing a copy |
| DictMerge.PyDict.MergeChild | aria/utils/collections.py:253-256 | the recursive merge into a nested dictionary leaves the parent a valid tree with that entry merged and all others as before |
| DictMerge.PyDict.Copy | aria/utils/collections.py:293-299 | a structural copy made only of fresh objects that stands for the same document |
| DictMerge.MergeByKeys | aria/utils/collections.py:250-264 | merging one more key is merging that key into what has been merged so far |
| DictMerge.ConflictByKeys | aria/utils/collections.py:250-261 | strict mode meets a conflict by one more key exactly if there was one before or there is one at that key |
| Executor.InitInv | aria/utils/threading.py:194-228 | a new pool meets the invariant |
| Executor.DoPlaces | aria/utils/threading.py:229-292 | a step moves each task from one place to another (about to be put, queue, running, recorded) and copies or loses none |
| Executor.DoConserves | aria/utils/threading.py:229-292 | every step keeps each submitted task in exactly one place |
| Executor.DoCounts | aria/utils/threading.py:229-292 | every step keeps the queue's unfinished count equal to what is queued, running or recorded but not done, markers taken by dead workers included |
| Executor.DoKeepsInv | aria/utils/threading.py:229-292 | every step of every thread keeps the whole invariant |
| Executor.RunInv | aria/utils/threading.py:187-292 | the invariant holds in every reachable state |
| Executor.DrainedIsQuiet | aria/utils/threading.py:244-245 | when drain returns, nothing is queued, running or about to be put |
| Executor.DrainsOrGoesOn | aria/utils/threading.py:229-292 | drain returns exactly when nothing is queued, under way or about to be put by the caller; until then some thread can make a step |
| Executor.DrainRecordsEverything | aria/utils/threading.py:244-292 | whenever drain returns, every task ever submitted, also by tasks, is recorded exactly once as a return or an exception |
| Executor.EachMarkerKillsOne | aria/utils/threading.py:235-281 | poison markers exist only once closing has begun, and each one put is still queued or has killed exactly one worker |
| Executor.CloseIsClean | aria/utils/threading.py:235-256 | a finished close leaves no live worker and every task recorded exactly once |
| Executor.DrainedResultsInOrder | aria/utils/threading.py:258-292 | after drain, under any interleaving, returns and exceptions list the outcomes of deterministic tasks in order of submission |
| Executor.BlockingExecutor.Submit | aria/utils/threading.py:168-176 | the blocking executor holds what the tasks submitted so far come to, in order |
| Executor.SubmitAllBlocking | aria/utils/threading.py:158-184 | one submitter of independent tasks: the blocking executor ends with the same returns and exceptions as every drained run of the pool (DrainedResultsInOrder) |
| ImportGraph.DedupKeep | aria/parser/consumption/presentation.py:133-135 | dropping self imports and failing imports commutes with dropping repetitions |
| ImportGraph.ImportsAreImportable | aria/parser/consumption/presentation.py:133-135 | the imports merged into a document are exactly those of its import list that are not self imports and load |
| ImportGraph.DedupDistinct | aria/parser/consumption/presentation.py:242-255 | no import is merged twice into the same document |
| ImportGraph.NeededIsSought | aria/parser/consumption/presentation.py:156-163 | what a read needs when each location is read in its class, it may come to under some classes |
| ImportGraph.ImportsRankLower | aria/parser/consumption/presentation.py:257-278 | in acyclic imports every import ranks lower than the importing location, which is why the recursive specification of a merged document is well-founded |
| ImportGraph.RankedIsAcyclic | aria/parser/consumption/presentation.py:257-278 | conversely, imports with such a rank are acyclic |
| ImportGraph.OneClassIsUniform | aria/parser/consumption/presentation.py:213-219 | imports are uniform if no document declares another class than main does |
| ImportGraph.CompleteClosure | aria/parser/consumption/presentation.py:154-165 | a complete result list has a result for every location at the end of a path of imports, with the location before it as origin |
| ReadInvariants.SoundKept | aria/parser/consumption/presentation.py:114-165 | every step of every thread keeps what is known of jobs, the local cache, thread positions and recorded outcomes |
| ReadInvariants.RunSound | aria/parser/consumption/presentation.py:80-165 | these hold in every state that a read with a thread pool reaches |
| ReadOrder.OrderedKept | aria/parser/consumption/presentation.py:156-163 | for each location in the cache, the imports submitted are, but for repetitions by a second builder, its import list in order, up to where its leading thread is |
| ReadOrder.RunOrdered | aria/parser/consumption/presentation.py:80-165 | that order holds in every reachable state |
| ReadOrder.BuildBound | aria/parser/consumption/presentation.py:145-154 | with W workers a location is built at most W times, and the main location at most once |
| ReadTermination.StepLowers | aria/parser/consumption/presentation.py:114-165 | every step lowers a lexicographic measure, also on cyclic imports |
| ReadTermination.EveryRunEnds | aria/parser/consumption/presentation.py:80-165 | no schedule goes on forever |
| ReadTermination.NeverStuck | aria/parser/consumption/presentation.py:94-112 | as long as the read is not over, some thread can make a step |
| ReadTheorems.DoneEnded | aria/parser/consumption/presentation.py:100-106 | when drain has returned, each import was recorded once: as a return if it was importable, else as an exception |
| ReadTheorems.ReadComplete | aria/parser/consumption/presentation.py:80-112 | every finished run of uniform imports, cyclic or not, returns a complete result list with the main result first |
| ReadTheorems.PooledReadGives | aria/parser/consumption/presentation.py:47-112 | every finished run of the pool, on cyclic imports too, ends with the main document and the cache that merging a complete result list gives |
| ReadTheorems.SchedulesAgree | aria/parser/consumption/presentation.py:47-112 | on any uniform imports, cold or warm: at a path that no needed document disputes, two reads show the same whatever their interleavings and numbers of workers, namely what the needed documents show |
| ReadTheorems.ReadClosure | aria/parser/consumption/presentation.py:133-165 | the pairs of origin and location in the results are exactly the importable edges from locations that the read reaches and does not find in the global cache |
| ReadTheorems.EachResultSought | aria/parser/consumption/presentation.py:133-165 | also of imports that are not uniform: every result is an importable import, in some class, of a location that the read may come to |
| ReadTheorems.PooledNothingMadeUp | aria/parser/consumption/presentation.py:47-61 | also of imports that are not uniform: all that main shows, some document shows that the read may come to under some classes |
| ReadTheorems.PooledReadSays | aria/parser/consumption/presentation.py:47-112 | every finished run of the pool, at disputed paths of cyclic imports too: main and the cache show their words |
| ReadTheorems.SchedulesSay | aria/parser/consumption/presentation.py:47-112 | two runs of the pool show the same there, whatever their interleavings, numbers of workers and caches |
| ReadTheorems.PooledHistoryGives | aria/parser/consumption/presentation.py:47-112 | a sequence of finished runs, each with the cache that the one before left, is a history of reads |
| ReadTheorems.PooledHistoryHolds | aria/parser/consumption/presentation.py:54-57 | over any such sequence no main document and no cached one holds anything foreign |
| ReadTheorems.PooledHistoryIsMerged | aria/parser/consumption/presentation.py:47-112 | of acyclic imports, every main document in such a sequence is the recursive specification |
| ReadTheorems.PooledHistoriesAgree | aria/parser/consumption/presentation.py:47-112 | of cyclic imports with every path decided, a document is the same in any two such sequences |
| ReadTheorems.ReadIsMerged | aria/parser/consumption/presentation.py:47-61 | for acyclic imports: whatever the interleaving, the number of workers and the consistent contents of the global cache, the main document ends as the recursive specification and the cache stays consistent |
| ResultMerge.ImportIndicesDedup | aria/parser/consumption/presentation.py:242-255 | get_imports selects one result for each imported location, in order of first occurrence |
| ResultMerge.LoopsRunOnce | aria/parser/consumption/presentation.py:257-278 | the import loop of a presentation runs at most once, on any result list |
| ResultMerge.MergeGrows | aria/parser/consumption/presentation.py:257-264 | merge sets the flag of the result, and results with the same presentation always have the same flag |
| ResultMerge.MergeReaches | aria/parser/consumption/presentation.py:266-268 | every result that a merge marks has all its imports marked |
| ResultMerge.MergeAllReaches | aria/parser/consumption/presentation.py:257-278 | on any result list, cyclic ones too, the merge ends, enters no import loop twice and leaves every result it reaches, and their imports, merged |
| ResultMerge.MergeIsMerged | aria/parser/consumption/presentation.py:257-278 | merging a result leaves its document fully merged and documents of higher rank untouched |
| ResultMerge.MergeMain | aria/parser/consumption/presentation.py:257-278 | the merge of a complete result list turns the main document and every merged one into the recursive specification, and keeps documents that came from the cache |
| ResultMerge.MergeReachesAllLocs | aria/parser/consumption/presentation.py:257-284 | every location that the read needs has a result that the merge reached |
| ResultMerge.CachingIsConsistent | aria/parser/consumption/presentation.py:55-57 | after caching the merged results of acyclic imports the cache holds fully merged documents only |
| ResultMerge.CachedLocs | aria/parser/consumption/presentation.py:55-57 | on any imports, caching covers every location with a result, and keeps those cached before |
| PresentationMerge.Merger.GetImports | aria/parser/consumption/presentation.py:242-255 | the loop with has_import selects the specified results |
| PresentationMerge.Merger.MergeResult | aria/parser/consumption/presentation.py:257-278 | the recursive method on flags and dictionary objects updated in place is the specification function; the dictionaries of the presentations still share nothing |
| PresentationMerge.Merger.MergeImports | aria/parser/consumption/presentation.py:266-278 | its loop over the imports |
| PresentationMerge.Merger.AbsorbResult | aria/parser/consumption/presentation.py:270-278 | a rejected import is skipped, any other is deep-merged into the dictionary object of the presentation; those of all other presentations stay as they are |
| PresentationMerge.MergeInto | aria/parser/presentation/presenter.py:53-56 | merging one raw dictionary object into another changes what no third one stands for, and leaves all of them apart |
| PresentationMerge.Merger.Mark | aria/parser/consumption/presentation.py:259-264 | marks all results with the same presentation |
| PresentationMerge.Merger.CacheMerged | aria/parser/consumption/presentation.py:54-57 | stores the documents of the merged results, and of no others |
| PresentationMerge.Consume | aria/parser/consumption/presentation.py:47-61 | merges the main result and stores the merged presentations if caching is on |
| Sights.ClearMeans | aria/utils/collections.py:249-265 | what it is to have no leaf on the way to a path, in terms of its prefixes |
| Sights.ViewSees | aria/utils/collections.py:249-265 | the view of a path lists what each of its prefixes shows |
| Sights.MergeView | aria/utils/collections.py:249-265 | the view of a merge is that of the source over that of the target: it overrides, except dictionaries with dictionaries |
| Sights.MergeWatch | aria/utils/collections.py:249-265 | behind prefixes where neither document has a leaf, what a merge shows depends only on what the two show there |
| Sights.CombineWithLess | aria/utils/collections.py:249-265 | a view is not changed by one that shows nothing else |
| Sights.MergeSees | aria/utils/collections.py:249-265 | a merge shows at every path what one of the two documents shows |
| Sights.MergeShows | aria/utils/collections.py:249-265 | at a path that neither disputes, a merge shows something exactly if one of the two does |
| Sights.SameSights | aria/utils/collections.py:249-265 | documents that show the same at every path are the same |
| CyclicMerge.MergingKeeps | aria/parser/consumption/presentation.py:257-278 | merging any result of any imports keeps a property that merging along single imports keeps |
| CyclicMerge.MergingGathers | aria/parser/consumption/presentation.py:257-278 | a result shows, at an undisputed path, all that was shown by any result which its merge newly marked |
| CyclicReads.NothingMadeUp | aria/parser/consumption/presentation.py:47-61 | a read of any imports, accepted or not, makes nothing up: what main shows, some needed document showed as it was loaded |
| CyclicReads.ReadShows | aria/parser/consumption/presentation.py:47-61 | on any imports: at a path that no needed document disputes, main shows a leaf or dictionary exactly if some needed document does |
| CyclicReads.SameDocument | aria/parser/consumption/presentation.py:47-61 | if the needed documents dispute nothing at any path, except below a leaf that they agree on, every read of them ends with the same main document |
| CyclicReads.ReadHolds | aria/parser/consumption/presentation.py:54-57 | any read, warm or cold, leaves in main and in the cache only documents that show nothing but what documents reached from their location do, and that still show their own |
| CyclicReads.ColdShows | aria/parser/consumption/presentation.py:133-165 | a cold read of any imports shows at an undisputed path exactly what some document does that main reaches |
| CyclicReads.WarmShows | aria/parser/consumption/presentation.py:136-149 | a warm read shows there nothing that a cold one would not, and all that documents show which it comes across |
| CyclicReads.WarmIsColdIff | aria/parser/consumption/presentation.py:136-149 | a warm read shows there what a cold one does, if and only if what main reaches is shown by some document that the read loads or finds |
| CyclicReads.FullHitsSuffice | aria/parser/consumption/presentation.py:136-149 | that is so if each cached document that the read finds shows what the documents behind it do |
| CyclicReads.VersionsAccepted | aria/parser/presentation/presenter.py:38-51 | if all classes accept some versions, documents that declare no others are accepted throughout any merge |
| CyclicReads.HistoryHolds | aria/parser/consumption/presentation.py:54-57 | over any sequence of reads from any main locations, no main document and no cached one ever holds anything foreign |
| CyclicReads.RejectedReadIsSource | aria/parser/consumption/presentation.py:257-278 | a rejected import leaves the importing document as it was: if the class of main accepts none of its imports as they end, main ends as its own source |
| CyclicReads.HistoryIsMerged | aria/parser/consumption/presentation.py:47-61 | over any sequence of reads of acyclic imports from any main locations, every main document is the recursive specification |
| CyclicMerge.AnyMergingKeeps | aria/parser/consumption/presentation.py:257-278 | merging any result of any list keeps a property that merging any two documents keeps |
| Words.MergeSettles | aria/parser/consumption/presentation.py:257-278 | merging a result of imports with cycles in a core leaves it and all below it with their words, and touches nothing above |
| Words.ReadSays | aria/parser/consumption/presentation.py:47-61 | a read of any imports whose cycles stay in a core of documents that agree, cold or warm: at disputed paths too, main shows the last word among its own and its imports, in list order, and so does all that the read caches |
| Words.ReadsSayTheSame | aria/parser/consumption/presentation.py:47-61 | two such reads show the same there, whatever the caches that earlier reads left |
| Words.RankOutsideCore | aria/parser/consumption/presentation.py:257-278 | where all cycles are in the core, the other imports are ranked |
| Words.ProfileIsLaid | extensions/aria_extension_tosca/simple_v1_0/presenter.py:73-76 | a condition for default reads: all cycles are among what the profile reaches; its documents show one view or nothing behind prefixes where no document has a leaf; those of them imported by others show all of it |
| Words.SilentProfileIsLaid | extensions/aria_extension_tosca/simple_v1_0/presenter.py:73-76 | in particular if no document has a leaf on the way to the path and those of the profile show nothing there |
| Words.AcyclicIsDecided | aria/parser/consumption/presentation.py:257-278 | acyclic imports need no core: every path is decided |
| Words.HistorySays | aria/parser/consumption/presentation.py:47-61 | over any history of reads, cyclic ones too, every main document shows its word |
| Words.HistoriesAgree | aria/parser/consumption/presentation.py:47-61 | if every path is decided, a document is the same after any two histories of reads: the cache is transparent on cyclic imports too |
| Words.ColdReadsAgree | aria/parser/consumption/presentation.py:47-61 | two cold reads end with the same document if each path is decided or undisputed |
| Overriding.OverridingIsDecided | aria/parser/consumption/presentation.py:257-278 | an input with cyclic imports and a dispute on which every cold read ends with the same document |
| ReadRuns.Serves | aria/utils/threading.py:258-292 | some run of the pool serves the next call of the queue to its end, with exactly this effect |
| CyclicSchedules.CyclicScheduleMatters | aria/parser/consumption/presentation.py:142-154 | a failing input: on cyclic imports whose documents dispute a path, two runs of two or more workers end with different main documents |
| ClassSchedules.ClassScheduleMatters | aria/parser/consumption/presentation.py:213-219 | a failing input: a document without a version, imported by presentations of two classes, gets the class of whichever builds it first, and two runs end with different main documents although the imports are acyclic |
| StaleCaches.CacheIsNotTransparent | aria/parser/consumption/presentation.py:136-149 | a failing input: after a read has entered a cycle elsewhere, every warm read misses what every cold read shows |
| BlockingRead.BlockingReader.Present | aria/parser/consumption/presentation.py:114-165 | one thread: the call returns a presentation of the location or fails as specified, and whatever it caches has all its imports read |
| BlockingRead.BlockingReader.SubmitImports | aria/parser/consumption/presentation.py:156-163 | the submitted imports return in the order of the import list |
| BlockingRead.PresentAll | aria/parser/consumption/presentation.py:80-112 | with one thread the result list of uniform imports, cyclic or not, is complete and no location is built twice |
| BlockingRead.ReadBlocking | aria/parser/consumption/presentation.py:47-61 | a blocking read of any uniform imports, cold or warm, ends with what the merge makes of a complete result list, as every run of the thread pool does; on acyclic imports that is the recursive specification |
| Types.DescendantByChain | aria/modeling/service_common.py:537-544 | get_descendant finds a type exactly when a chain of children leads to one of that name |
| Types.RoleIsNearest | aria/modeling/service_common.py:515-524 | a type's role is that of the nearest type on the way to the root that has one |
| Requirements.TargetMeans | aria/orchestrator/topology/instance_handler.py:254-306 | the target that is found is exactly the one meant, over positions and chains of types: a named template with its first capability on offer, or the first capability on offer of the first template that qualifies and has one; there is none only if nothing is on offer |
| Requirements.CapabilityMeans | aria/orchestrator/topology/instance_handler.py:308-316 | the capability found is the first one in the template that is of a type below the required one, whose valid source types are all above the type of the source, and that meets every constraint; none is found only if there is none |
| Requirements.SatisfiesIffOffers | aria/orchestrator/topology/instance_handler.py:318-340 | the three tests on one capability, by chains of types and by each constraint |
| Requirements.FitsMeans | aria/orchestrator/topology/instance_handler.py:277-306 | a template fits exactly if it is below the node type named, if one is, and then meets the constraints of the source template, and some capability of it is on offer |
| Requirements.FirstWithRoom | aria/orchestrator/topology/instance_handler.py:214-221 | the first instance with room, or all are full |
| RequirementProofs.RoundMeans | aria/orchestrator/topology/instance_handler.py:184-252 | one requirement without a relationship, given the target that is meant: exactly which issues are added, that it fails exactly with one of them and then changes nothing else, and else which relationship to which instance is added |
| RequirementProofs.RequirementKeeps | aria/orchestrator/topology/instance_handler.py:184-203 | one requirement: the conservation laws hold, every issue it adds has a reason that stays one, and without an issue the requirement has a relationship |
| RequirementProofs.NodeInOrder | aria/orchestrator/topology/instance_handler.py:182-204 | requirements have their turns in order, each on what the one before left; the flag is that of the last |
| RequirementProofs.ServiceInOrder | aria/orchestrator/topology/instance_handler.py:537-539 | so have the nodes, up to the first one that returns False |
| RequirementProofs.ServiceKeeps | aria/orchestrator/topology/instance_handler.py:537-539 | a whole pass keeps occurrences equal to the relationships that target a capability and never above its maximum, and reports an issue only for a reason: no target, a mismatch, no instances, or all instances full; if no issue is reported then no node was skipped, whatever the flags say |
| RequirementProofs.ServiceAgain | aria/orchestrator/topology/instance_handler.py:186-192 | a second pass over satisfied requirements changes nothing |
| RequirementProofs.ValidateServiceMeans | aria/orchestrator/topology/instance_handler.py:168-180 | validation adds exactly the issues that name a capability and a node of the service where occurrences are fewer than the minimum, and changes nothing else |
| RequirementProofs.ValidateNodeMeans | aria/orchestrator/topology/instance_handler.py:168-180 | the same for one node, from any of its capabilities on |
| RequirementProofs.AcceptedMeetsMinima | aria/modeling/service_instance.py:1241-1245 | validation finds no issue exactly when every capability of the service with a minimum m is the target of m relationships or more |
| RequirementProofs.NoIssuesMeansWellFormed | aria/core.py:84-94 | a new service accepted without an issue has exactly one relationship per requirement, each to a capability reached by a chain from the required type, whose every valid source type has a chain to the type of the source, and that meets every constraint; every capability is the target of no more relationships than its maximum and no fewer than its minimum; and a second pass changes nothing |
| RequirementProofs.FirstFit | aria/orchestrator/topology/instance_handler.py:206-252 | a request goes to the first instance with room; it fails only when all are full and then changes nothing |
| RequirementProofs.RequestsFillRoom | aria/orchestrator/topology/instance_handler.py:182-221 | any distinct requests, of any nodes and requirements, that come to one capability yield as many relationships as there is room, and at most one each; the first ones are served |
| RequirementProofs.UnboundedNeverFull | aria/modeling/service_instance.py:1247-1252 | a capability without a maximum, or with a negative one, never refuses |
| Topology.TopologyHandler.RelateTo | aria/modeling/service_instance.py:1247-1252 | relate takes one place or leaves a full capability as it is |
| Topology.TopologyHandler.FindTargetFor | aria/orchestrator/topology/instance_handler.py:254-306 | the loop over node templates finds the target that is meant, the first pair of template and capability on offer or the named template, and reports exactly a named one that does not meet the constraints |
| Topology.TopologyHandler.RelateToFirst | aria/orchestrator/topology/instance_handler.py:214-221 | the loop over instances takes a place at the first one with room |
| Topology.TopologyHandler.SatisfyWithCapability | aria/orchestrator/topology/instance_handler.py:206-252 | the two failures and the two ways to relate |
| Topology.TopologyHandler.SatisfyNodeRequirements | aria/orchestrator/topology/instance_handler.py:182-204 | the loop over requirements, with the flag overwritten by each |
| Topology.TopologyHandler.SatisfyServiceRequirements | aria/orchestrator/topology/instance_handler.py:537-539 | the loop over nodes stops at the first that returns False |
| Topology.TopologyHandler.ValidateNodeCapabilities | aria/orchestrator/topology/instance_handler.py:168-180 | reports exactly the capabilities with fewer occurrences than their minimum, by name, and returns False in any case |
| Topology.TopologyHandler.ValidateServiceCapabilities | aria/orchestrator/topology/instance_handler.py:530-535 | reports exactly the capabilities of all nodes of the service that fall short, and returns True only for a service without nodes |
| Topology.TopologyHandler.SatisfyAndValidate | aria/core.py:85-94 | the two phases with the final issue check: an accepted service is well-formed; any service keeps the conservation laws, a capability with a minimum m is reported by name exactly if fewer than m relationships target it, and every other issue has its reason |
| HostSearch.HostByLinks | aria/orchestrator/topology/topology.py:192-210 | over the links: a host is its own host; any other node has the host of its first outbound host relationship whose target leads to a host, if there is none that of its first inbound feature relationship whose source does, and else none |
| HostSearch.SearchedIff | aria/orchestrator/topology/topology.py:200-209 | the search passes from one node to another exactly along a host relationship before which none leads to a host, or, if none at all does, along a feature relationship before which none does |
| HostSearch.FindsFirstHost | aria/orchestrator/topology/topology.py:192-210 | a search that ends returns the first host in depth-first order, or there is none in it |
| HostSearch.EndsPosition | aria/orchestrator/topology/topology.py:200-205 | the nodes that the search goes on to come from the relationships of the right role, in the order of these |
| HostSearch.EndsAppend | aria/orchestrator/topology/topology.py:200-205 | relationships are followed in their order |
| HostSearch.HostIffReachable | aria/orchestrator/topology/topology.py:192-210 | it returns None exactly when no host can be reached, and a host it returns can be reached and is its own host |
| HostSearch.BoundedChainsTerminate | aria/orchestrator/topology/topology.py:192-210 | the search ends if chains of nodes without the host role are bounded |
| HostSearch.AcyclicSearchEnds | aria/orchestrator/topology/topology.py:192-210 | it ends if no such chain comes back to a node |
| HostSearch.DepthIrrelevant | aria/orchestrator/topology/topology.py:192-210 | a deeper stack does not change the result of a search that ends |
| HostSearch.NeverEndsIff | aria/orchestrator/topology/topology.py:192-210 | it exhausts any stack exactly when a chain that it follows, past no entry that leads to a host, comes back to a node; equivalently when a stack as deep as there are nodes does not suffice |
| HostSearch.CycleNeverEnds | aria/orchestrator/topology/topology.py:200-204 | two nodes without the host role, each hosted on the other, exhaust any stack |
| HostSearch.CycleBehindHostEnds | aria/orchestrator/topology/topology.py:196-209 | a cycle does not matter if the search finds a host before it |
| HostSearch.Hosts.AssignHosts | aria/orchestrator/topology/topology.py:212-214 | every node of the service gets exactly the host that the first links which lead to one lead to, or None exactly if it can reach none; an assigned host is its own host |
| Hierarchy.Validate | aria/parser/presentation/field_validators.py:146-181 | the walk always ends, and each of the three issues is reported exactly when the parent is the type itself, is unknown, or the chain runs in a circle |
| Hierarchy.AllValidIff | aria/parser/presentation/field_validators.py:146-181 | no type has an issue exactly when every derivation chain ends at a root |
| Hierarchy.ValidateAll | aria/parser/presentation/field_validators.py:131-181 | validating all types reports exactly the types with an issue |
| Hierarchy.CircleNeverStops | aria/parser/presentation/field_validators.py:161-181 | a type whose derivation runs in a circle has no walk that stops |
| Functions.CoercionPreservesMeaning | aria/orchestrator/topology/instance_handler.py:626-632 | evaluating a coerced parameter later equals evaluating the original later, for any nesting, if functions that were final give the same value later |
| Functions.FinalIsPreserved | aria/modeling/functions.py:69-140 | a value that evaluated to something final can be replaced by it |
| Functions.CoercionIdempotent | aria/orchestrator/topology/instance_handler.py:626-632 | coercing twice in one environment is coercing once |
| Functions.NoneIffNothingEvaluable | aria/modeling/functions.py:69-140 | evaluate returns None exactly when no function in the value can be evaluated |
| Functions.EvaluationBecomes | aria/modeling/functions.py:69-140 | the value of an evaluation by position: scalars and functions that cannot be evaluated stay, lists keep length and order, dictionaries their keys and order, and a function becomes what the value it returns becomes; no value exactly if the stack does not suffice |
| Functions.FinalIffAllFinal | aria/modeling/functions.py:95-140 | an evaluation is final exactly if every function that returned on the way returned a final value |
| Functions.CoercionMeans | aria/orchestrator/topology/instance_handler.py:626-632 | coercion replaces a value by what it becomes exactly if all is final on the way, and leaves it as it is otherwise |
| Functions.IssuesIffInvalid | aria/modeling/functions.py:104-109 | an issue is met exactly when an invalid function that raises it is called, also by way of what other functions return |
| Functions.DepthIrrelevant | aria/modeling/functions.py:96-103 | a deeper stack does not change an evaluation that ends |
| Functions.Evaluator.EvaluateValue | aria/modeling/functions.py:69-140 | the recursive method ends exactly if the value becomes something, returns None exactly if nothing in it can be evaluated, else what it becomes, final exactly if all was final on the way; each issue is reported once |
| Functions.ReportedOnce | aria/parser/validation/issue.py:138-155 | each issue found is kept exactly once |
| Functions.Evaluator.EvaluateItems | aria/modeling/functions.py:112-124 | the loop over a list |
| Functions.Evaluator.EvaluateValues | aria/modeling/functions.py:126-138 | the loop over a dictionary |
| Functions.Parameter.Coerce | aria/orchestrator/topology/instance_handler.py:626-632 | the value is replaced by what it becomes exactly if something in it can be evaluated and all is final on the way; every later evaluation gives what it would have given |
| NodeNames.IndexRecovered | aria/modeling/service_template.py:514-537 | the index read off a node name is the one printed into it |
| NodeNames.NamesDistinct | aria/modeling/service_template.py:528-537 | two node names are equal only if template and index are |
| NodeNames.NextIndex | aria/modeling/service_template.py:514-526 | one more than the highest index so far; the name it gives is new |
| NodeNames.Highest | aria/modeling/service_template.py:523-525 | the maximum over the nodes |
| NodeNames.ScalingReportedIff | aria/orchestrator/topology/template_handler.py:108-125 | the six tests report exactly when 0 <= min <= default <= max does not hold |
| NodeNames.ScalingOfMeans | aria/modeling/service_template.py:539-571 | the scaling of a template is, property by property, the value of the first source that gives it, and 0, 1 and 1 where none does |
| NodeNames.CollectScaling | aria/modeling/service_template.py:539-571 | the nested helpers collect that: the first source that gives a property decides it, capabilities before policies, and min 0, max 1, default 1 where none does |
| NodeNames.UnscaledYieldsOne | aria/modeling/service_template.py:567-569 | a template without scaling properties yields one node and is not reported |
| NodeNames.ServiceTemplate.InstantiateNode | aria/orchestrator/topology/template_handler.py:361-367 | the new node gets a name that its template has not given before |
| NodeNames.ServiceTemplate.InstantiateTemplate | aria/orchestrator/topology/template_handler.py:77-79 | as many new nodes join the service as the first source that gives default_instances says, one if none does, none if that is negative |
| NodeNames.ServiceTemplate.InstantiateService | aria/orchestrator/topology/template_handler.py:76-79 | each template gives as many nodes as its first given default_instances, or one; the node dictionary has exactly these entries, all names new; and exactly the templates are reported whose properties, as first given, are not in the order 0, min, default, max |
| Decimal.ParsePrint | aria/modeling/service_template.py:525-537 | reading a printed number recovers it |
| Instrumentation.UpdateDeeper | aria/storage/collection_instrumentation.py:104-120 | replacing a nested dictionary by itself with one entry changed is changing that entry |
| Instrumentation.AtUpdated | aria/storage/collection_instrumentation.py:104-120 | after an update the dictionary at the parent path has the new entry |
| Instrumentation.Model.SetField | aria/storage/collection_instrumentation.py:122-138 | an existing parameter keeps its identity and gets the value, a new key gets a new parameter |
| Instrumentation.Handle.SetItem | aria/storage/collection_instrumentation.py:104-138 | through one fresh chain, the instrumented root and the model field end in agreement on every key, both the old nested value functionally updated at the path |
| Instrumentation.Handle.SetNested | aria/storage/collection_instrumentation.py:118-138 | below the top level the parent gets a copy of the entries, up to the root |
| Versions.StrippedEqual | aria/utils/versions.py:121-127 | tuples without trailing zeros are equal exactly when the components agree with unlimited zero padding |
| Versions.StrippedLess | aria/utils/versions.py:121-127 | their order is numeric order component by component with unlimited zero padding |
| Versions.KeyOrderMeans | aria/utils/versions.py:70-78 | what == and < on keys say about components and qualifiers |
| Versions.KeyTrichotomy | aria/utils/versions.py:70-78 | exactly one of less, equal and greater holds |
| Versions.KeyTransitive | aria/utils/versions.py:75-78 | the order is transitive |
| Versions.NullBelowNonZero | aria/utils/versions.py:53-54 | an invalid version is below exactly the versions with a non-zero component, and above exactly the qualified zero versions |
| Versions.WordsAreRead | aria/utils/versions.py:27-34 | a numeral behind dev, alpha, beta or rc, however capitalised, is read as a qualifier of that stage, and one without a prefix as a plain number |
| Versions.NumeralMeans | aria/utils/versions.py:27 | the pattern of numbers: digits, at least one, and a newline that may follow, with the value of the digits |
| Versions.TenIsOneAbove | aria/utils/versions.py:27-34 | ten of one stage is one of the next, up to a plain number |
| Versions.StageOrderExactly | aria/utils/versions.py:27-34 | exactly which qualifiers of a lower stage are below one of a higher stage |
| Versions.NineIsTheBound | aria/utils/versions.py:43-51 | dev < alpha < beta < rc < number holds for prefixed numbers from 1 to 9 and plain numbers from 1, and for no larger bound: alpha10 ties with beta1 |
| Versions.QualifiedBelowPlain | aria/utils/versions.py:50-51 | a version is above itself with any qualifier |
| Versions.ReadsWhatIsWritten | aria/utils/versions.py:84-160 | a string that spells a version is read as that version |
| Versions.ReadIsWritten | aria/utils/versions.py:84-160 | only strings that spell a version are read; all others get the null key |
| Versions.SpellRead | aria/utils/versions.py:84-160 | round trip: spelling out a version and reading it |
| Versions.TrailingZeroIgnored | aria/utils/versions.py:40-41 | another ".0" behind an unqualified string, valid or not, does not change its key |
| Versions.ParseNumbers | aria/utils/versions.py:106-119 | the loop over the elements |
| Versions.RemoveRedundantZeros | aria/utils/versions.py:121-127 | the loop that pops zeros |
| Versions.ParseQualifier | aria/utils/versions.py:129-158 | the qualifier, whatever the order of the prefix dictionary |
| Versions.ParseVersionString | aria/utils/versions.py:84-160 | the parser as it runs computes the specified key |

## Left out

- ReadTheorems.SchedulesSay: what main shows where documents of a cycle dispute a path with each other, or where a file of a cycle that says nothing itself is imported from outside; there it can depend on the schedule.
- ReadTheorems.ReadIsMerged: the check of an import is an arbitrary function of the importing class and the imported document; reporting its issue is not modelled.
- ReadTheorems.ReadComplete: the canonical location of an import is given with the source; CANONICAL_LOCATION_CACHE only saves computing it again.
- ReadTermination.NeverStuck: executor timeouts, a full queue and tasks that raise something other than an Exception do not occur; a second close is outside the intended use of the pool.
- BlockingRead.ReadBlocking: the main location loads; a read whose main location fails raises its error and has no main document. Imports that are not uniform are covered for the pool only: its steps, its termination, and that nothing is made up.
- PresentationMerge.Merger.MergeResult: the dictionaries of presentations found in PRESENTATION_CACHE are read into objects of their own, because a read never changes them; the cache holds documents.
- DictMerge.PyDict.MergeFrom: arguments are trees that share no object, so dictionaries shared inside one document (YAML aliases) and merging with copy off are not covered; values other than dictionaries are compared as wholes; the path text of a strict-mode error is not modelled.
- HostSearch.HostByLinks: the depth stands for the stack, and what happens when it is exhausted is not modelled.
- Functions.Evaluator.EvaluateValue: likewise for chains of functions that return functions; what calling a function gives is an environment.
- Topology.TopologyHandler.SatisfyAndValidate: coercion and validation between the phases, relationship templates and the properties of relationships; constraint matching is a fixed function of constraint and templates.
- RequirementProofs.NoIssuesMeansWellFormed: targets may be nodes of earlier services of the same service template, as in the code.
- NodeNames.ServiceTemplate.InstantiateService: properties, attributes, interfaces, groups, policies and plugins of new nodes.
- Instrumentation.Handle.SetItem: instrumented lists, two live handles on one nested value, and assigning a wrapped parameter; the update of the storage is the update of the field.
- Versions.ParseVersionString: digits other than ASCII, and the rounding of qualifiers held as floats; factors are scaled by 10000 to be exact.
- Types.DescendantByChain: `is_descendant`, `iter_descendants` and `hierarchy` would only repeat the two queries that are modelled.
- Loading by file, HTTP, YAML and zip, locators, SQLAlchemy sessions, the CLI, logging, dumps and remote execution: input and output.
- `prune`, `null_to_none`, plugin minimum versions, status tables, frozen and strict collections, method caching: easy, or not of this core.
- `Topology.coerce` and `Topology.validate` over a whole tree: their handlers return None, so they stop after the first list element; coercion is modelled per parameter.
