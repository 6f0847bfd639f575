# A verified model of the chain-registry sentinel's decisions

The sentinel probes every endpoint a chain registry declares, keeps failure streaks across runs, and
opens pull requests that delete dead endpoints, mark dead chains or correct IBC hashes. This project
models the decisions on that path in Dafny and proves what they promise, from the registry entry to
the edited file and the next run over it.

The model is laid out like the program:

| files | part of the program |
|---|---|
| `Strings`, `Seqs`, `Sorting`, `Trails`, `Model` | vocabulary: Go strings and their order, counting and filtering, sorting, hits since a reset, the records that flow |
| `Probing`, `Dedup`, `WorkerPool`, `Schedule` | `buildJobs`, the worker pool as a transition system, independence of the arrival order |
| `State`, `Update`, `PrFlow`, `Openings` | streaks, `updateState`, flag / re-probe / reset, the three loops that open pull requests |
| `ChainDeath`, `DeathMeaning`, `Withdrawal` | chain-death counters, signatures, vantage guard, streak, evidence, and what the withdrawal signature really counts |
| `Sentinel`, `WholeRun`, `History`, `LastSeen`, `DeathHistory`, `RateLimits`, `Completeness`, `NextRun` | one whole run, its independence of the schedule, and what holds over every sequence of runs: what is done was due, and what is due is done |
| `JobCounts`, `RunInJobs` | counters and verdicts in terms of jobs and their probes, below the results |
| `Records`, `Aggregation`, `ReportMeaning`, `Concentration`, `RecordRows`, `ReportJobs`, `Shares`, `Agreement` | the report, what its columns and figures mean in terms of jobs, and its agreement with the detection |
| `EditChain`, `Reload`, `EditAssets`, `HashFix`, `HashFlow`, `EndToEnd` | the registry editors, and probing or checking what they wrote |
| `Scenarios` | small registries and probes for the statements that exhibit a run |
| `Wire`, `WireExact`, `NodeInfo`, `NodeInfoExact`, `GrpcWeb`, `Branches` | the protobuf decoder behind gRPC-web framing, and branch numbering |

How to read it:

- A loop of the program is a method with a loop; its `ensures` equates the result, or the new state,
  with a specification function. What the program promises is then proved about those functions.
- Go map iteration is a loop that picks any remaining key. Worker goroutines are a transition system
  whose scheduler is arbitrary. Probes, GitHub's answers, the clock, the registrable domain of an
  address and SHA-256 are arbitrary parameters.
- `Sentinel.Run` composes one run and ensures the relation `RunsTo`; `History.Happened` is any sequence
  of such runs from an empty state directory. Preconditions are those of the program's operators:
  distinct chain names, a nonzero clock, and `concurrency`, `min-failures` and
  `chain-death-min-runs` at least 1. What no worker at all would do is `NoWorkersLoseEverything`.
- Times are integer nanoseconds since year 1, so Go's zero time is 0; durations are 64-bit and
  `Time.Sub` saturates. Percentages are exact rationals.

Where the program does not do what its own text says, the model follows the code:

- The withdrawal signature and its evidence column are described as operators "alive on other chains".
  The code also counts live results of the dying chain itself, such as its gRPC or WSS endpoints.
  `WitnessesAreElsewhere` says exactly when every witness is another chain's, `VerdictIsAsDescribed`
  exactly when the verdict is the described one, `LiveElsewhereCountsOwn` exactly when the column is
  right; in every run of `OwnGrpcCanTestify` a chain looks dead with no other chain probed.
- The two death detectors are to be kept in agreement, but one limit is a flag and the other a constant,
  and records round block times down. `DisagreementIsExact` says for every limit and every time when
  they differ on a chain, `AgreementIsExact` for limits of at least seven days, where detection stays
  within the report. `FractionsMatter` exhibits the rounding at any moment that is not a full second,
  and `ShortLimitHidesAFlip` a shorter limit under which a chain gets a status PR its report omits.
- The "first-listed endpoint" figure depends on the order of the records: the last first-listed RPC or
  EVM record of a chain decides. `FirstDeadIgnoresOrder` says exactly when it does not matter, and
  `RecordsAreDeterministic` that the order itself is fixed by sorting.
- Deletion keys join category and address with `|`. A category name containing `|` can collide
  (`BarCollides`); `EditIsPairFilter` states exactly when the edit is the intended filter.

## Model

| member | source | states |
|---|---|---|
| Probing.BuildJobs | cmd/sentinel/probe.go:86-123 | produces, list by list, the first occurrences of each chain's declared (type, address) pairs |
| Dedup.ExactDedup | cmd/sentinel/probe.go:90-105 | a chain's pairs are distinct and cover exactly the declared ones of its type; each order is the 1-based first position, strictly increasing within a type |
| Dedup.ProbedByType | cmd/sentinel/probe.go:106-120 | which lists are probed: all six of a cosmos chain, the EVM list of an eip155 chain, none of any other |
| Dedup.AllJobsDistinct | cmd/sentinel/probe.go:95-105 | over the whole registry no two jobs share chain and pair |
| Probing.DedupKeyInjective | cmd/sentinel/probe.go:98-98 | the string key "type\|address" separates all pairs |
| WorkerPool.StepPreserves | cmd/sentinel/probe.go:188-213 | every action of any goroutine keeps queued + in-flight + finished jobs, and all results, accounted for |
| WorkerPool.RunInvariant | cmd/sentinel/probe.go:179-216 | that accounting holds in every reachable state |
| WorkerPool.SendNeverBlocks | cmd/sentinel/probe.go:186-206 | with capacity twice the jobs a pending send always has room, even with no reader, and never hits a closed channel |
| WorkerPool.StepDecreases | cmd/sentinel/probe.go:188-213 | each action lowers a natural-number measure |
| WorkerPool.SomethingEnabled | cmd/sentinel/probe.go:188-213 | until the channel is closed, drained and every worker gone, some goroutine can move |
| WorkerPool.EveryMaximalRunDelivers | cmd/sentinel/probe.go:179-216 | every maximal interleaving is bounded, ends closed and drained, probed each job once and delivered the same multiset of results |
| WorkerPool.NoWorkersLoseEverything | cmd/sentinel/probe.go:189-213 | with zero workers the channel closes at once and nothing is delivered |
| WorkerPool.RunWorkers | cmd/sentinel/probe.go:179-216 | under any scheduler the reader gets exactly the results of all jobs, in some order |
| Schedule.BuildActiveLivenessKeys | cmd/sentinel/probe.go:299-313 | yields per chain exactly the state keys of its jobs |
| Schedule.RunObservesOnce | cmd/sentinel/probe.go:90-105 | a run's results contain at most one counted observation of any state key |
| Schedule.ArrivalOrderIsIrrelevant | cmd/sentinel/main.go:219-227 | for any two deliveries of the same run the folded state map is the same |
| State.CutInvertsKey | internal/state/state.go:17-19 | splitting a state key at the first bar recovers (check, address) if and only if the check has no bar |
| State.EndpointKeyInjective | internal/state/state.go:17-19 | distinct (check, address) pairs have distinct keys |
| State.ChainState.Update | internal/state/state.go:126-151 | merges one result: the whole new map, with streak, first and last evidence, first failure time |
| State.ChainState.Prune | internal/state/state.go:154-160 | keeps exactly the active keys, unchanged |
| Update.UpdateState | cmd/sentinel/main.go:212-250 | leaves the fold of all counted results restricted to active keys, and returns the number of pairs at or over the threshold |
| PrFlow.CollectFlagged | cmd/sentinel/prflow.go:57-83 | lists per chain exactly the keys at or over the threshold, once each, with their streak data |
| Completeness.FlaggedExactly | cmd/sentinel/prflow.go:61-71 | a pair in the state is flagged if and only if its streak has reached the threshold |
| Completeness.JobIsFlagged | cmd/sentinel/prflow.go:57-83 | over any history, a job of a chain that does not look dead is flagged exactly when it failed in at least min-failures runs since the last break |
| Completeness.SeenByProbe | cmd/sentinel/main.go:219-227 | what a run counts for a job is its liveness verdict, if that was not skipped |
| PrFlow.CollectedWasCounted | cmd/sentinel/prflow.go:39-42 | skipping the flow when nothing was counted skips nothing it would have collected |
| PrFlow.Preflight | cmd/sentinel/prflow.go:90-133 | passed keys are exactly the flagged pairs whose own job passed when probed again |
| PrFlow.ApplyPreflightResults | cmd/sentinel/prflow.go:138-166 | resets exactly the flagged pairs that passed, and nothing else |
| Openings.CompactInPlace | cmd/sentinel/prflow.go:234-242 | appending to a slice of the array being ranged over leaves the order-preserving filter of its old content |
| Openings.OpenedShape | cmd/sentinel/prflow.go:224-228 | a capped opening loop serves only willing chains, at most the cap, and skips a willing one only when the cap is reached |
| Openings.OpenedIsPrefix | cmd/sentinel/prflow.go:225-228 | exactly the first willing chains up to the cap are served, in order |
| Openings.OpenPRs | cmd/sentinel/prflow.go:211-256 | opens, in order and up to the cap, the chains with something still dead and no cooldown, each with exactly its still-dead list; stamps those; other chains' lists stay |
| Openings.OpenHashPRs | cmd/sentinel/hashpr.go:141-163 | the same for mismatched chains that are not excluded, in the hash bucket |
| Openings.OpenStatusPRs | cmd/sentinel/chaindeath.go:320-358 | the same for candidates, in the status bucket |
| ChainDeath.CheckVantage | cmd/sentinel/chaindeath.go:59-72 | suspect exactly when something failed and 20 times the resolver or route failures reach the failures |
| ChainDeath.BuildChainDeathFacts | cmd/sentinel/chaindeath.go:76-132 | computes the per-chain counters and the live results per domain |
| ChainDeath.ChainLooksDead | cmd/sentinel/chaindeath.go:144-161 | holds exactly when a chain is abandoned or halted by those counters |
| ChainDeath.RunChainDeathDetection | cmd/sentinel/chaindeath.go:170-214 | for any iteration order: new streaks, the dead-looking set, and the sorted duplicate-free candidates; nothing moves under a suspect vantage |
| DeathMeaning.CounterMeans | cmd/sentinel/chaindeath.go:91-128 | each counter is the number of results of its kind in the list |
| JobCounts.CoreKinds | cmd/sentinel/chaindeath.go:99-102 | RPC, REST and EVM endpoints decide reachability; gRPC, gRPC-web and WSS do not |
| JobCounts.CountersInJobs | cmd/sentinel/chaindeath.go:91-128 | each counter is the number of the chain's jobs of the right kind whose probe gave the right verdict |
| JobCounts.VantageInJobs | cmd/sentinel/chaindeath.go:59-72 | the run is suspect exactly when one failed job in twenty or more failed with dns_failure or vantage_no_route |
| JobCounts.DetectionInJobs | cmd/sentinel/chaindeath.go:144-193 | the chains judged dead, from the jobs and their verdicts alone |
| RunInJobs.DeadInRun | cmd/sentinel/main.go:322-323 | the same for a whole run, with its own clock, age limit and domains |
| RunInJobs.JudgedInRun | cmd/sentinel/chaindeath.go:180-197 | a streak moves exactly for a loaded chain with a measured core job under a healthy vantage |
| DeathMeaning.AbandonedMeans | cmd/sentinel/chaindeath.go:145-158 | abandoned if and only if core checks ran, none passed, and at least three witness domains testify, or all of a smaller number of at least two |
| DeathMeaning.HaltedMeans | cmd/sentinel/chaindeath.go:159-160 | halted if and only if some synced RPC answered and every one reports a nonzero time older than the limit |
| DeathMeaning.HaltedMeansNewestIsOld | cmd/sentinel/chaindeath.go:111-120 | "all report a time and even the newest block is too old" is the same as halted, except for chains whose every time is before year 1 |
| DeathMeaning.NewestMeans | cmd/sentinel/chaindeath.go:117-119 | the newest block is the maximum of the reported times |
| DeathMeaning.BuildStatusEvidence | cmd/sentinel/chaindeath.go:218-250 | the streak, its first time, the endpoints probed, the newest reported block, and exactly the witness domains with their live and dead counts, most dead first, then by name |
| Withdrawal.WitnessesAreElsewhere | cmd/sentinel/chaindeath.go:20-23 | every witness domain answers on another chain if and only if no domain that is both dead and alive here is silent on all others |
| Withdrawal.VerdictIsAsDescribed | cmd/sentinel/chaindeath.go:145-158 | counting only other chains gives the same verdict, except exactly when core is down, too few domains answer elsewhere and the chain's own survivors make up the difference |
| Withdrawal.LiveElsewhereCountsOwn | internal/github/pr.go:440-444 | the "live on other chains" count is right if and only if the chain has no live result on that domain, and otherwise too large by those |
| Withdrawal.OwnGrpcCanTestify | cmd/sentinel/chaindeath.go:105-111 | in every run over one chain whose RPC and REST are dead while its gRPC answers on the same domains, that chain looks dead although no other chain testifies |
| WholeRun.RunIsDeterministic | cmd/sentinel/main.go:309-331 | any two outcomes of one run on one state agree on the saved state, candidates, status and hash PRs, and on the endpoint PRs up to the order of their entries, if GitHub's answer does not depend on that order |
| Sentinel.Run | cmd/sentinel/main.go:294-331 | one run does what `RunsTo` says, stage by stage, for every schedule, iteration order and answer of GitHub |
| History.RunStreakStep | cmd/sentinel/prflow.go:138-166 | one run breaks, extends or keeps the streak of every pair, loaded or not |
| LastSeen.ColumnsRefineHistory | internal/state/state.go:126-151 | after any runs the other saved columns are those of the pair's latest check and latest unskipped probe since it was last absent |
| History.StreakRefinesHistory | internal/state/state.go:126-160 | after any runs a streak counts exactly the failing observations since the latest pass, rescue or absence, with the oldest failure's time and evidence and the newest's evidence |
| History.RemovalSafety | cmd/sentinel/prflow.go:57-256 | a proposed removal rests on at least min-failures distinct runs that saw that very pair fail, none since the first that saw it pass or rescued it; the pair is a job of this run, its own re-probe did not pass, and the chain does not look dead |
| Completeness.DueIsProposed | cmd/sentinel/prflow.go:57-256 | the converse: a pair that failed often enough, in a chain that does not look dead, and fails its own re-probe is proposed, unless the chain is cooling down, GitHub declines or the cap is reached |
| DeathHistory.DeathStreakRefinesHistory | cmd/sentinel/chaindeath.go:180-207 | the death streak is the trailing block of dead-looking runs after deleting suspect, coreless and unloaded ones; its first time is that block's first run and is zero exactly when the streak is |
| DeathHistory.DeadRunsMeans | cmd/sentinel/chaindeath.go:180-207 | that block is exactly the dead-looking runs with no judged-alive run after them, in order |
| DeathHistory.CandidatesAreExact | cmd/sentinel/chaindeath.go:208-213 | candidates are sorted, duplicate-free, and exactly the chains judged in this run whose block reached the threshold |
| DeathHistory.FlipSafety | cmd/sentinel/chaindeath.go:284-362 | a status PR rests on at least chain-death-min-runs dead-looking runs ending with this one, none alive in between |
| DeathHistory.FlowsExcludeEachOther | cmd/sentinel/prflow.go:21-44 | a chain with a status PR gets neither an endpoint nor a hash PR in the same run |
| RateLimits.CapsHold | cmd/sentinel/prflow.go:224-228 | each flow opens at most its own cap, and fewer only when every willing chain was served |
| Completeness.CoolingEnds | cmd/sentinel/prflow.go:181-184 | a chain is held back exactly while its last opening is less than a positive cooldown ago |
| Completeness.StatusIsOpened | cmd/sentinel/chaindeath.go:320-358 | only an accepted candidate that is not cooling down gets a status PR, and each gets one unless the cap is reached |
| Completeness.FixIsOpened | cmd/sentinel/hashpr.go:141-163 | the same for hash PRs of loaded, mismatched chains that do not look dead |
| Completeness.RemovalIsOpened | cmd/sentinel/prflow.go:225-254 | the same for endpoint PRs of chains with flagged endpoints left over after the re-probe |
| RateLimits.RunStamps | cmd/sentinel/prflow.go:247-253 | a run moves a chain's stamp in a bucket exactly when it opens a PR for it there |
| RateLimits.CooldownHolds | cmd/sentinel/hashpr.go:71-74 | over any history two successive openings for one chain in one bucket are at least the cooldown apart |
| Records.FormatRounds | internal/report/record.go:124-126 | a written block time reads back rounded down; unchanged exactly when whole and in years 0 to 9999 |
| GoStrings.LessMeans | internal/report/record.go:134-142 | the order of every sorted list is the dictionary order: the first difference decides, a proper prefix comes first |
| Records.Build | internal/report/record.go:91-144 | keeps exactly the results with a class or a verdict, stamped, sorted by chain, check and endpoint |
| RecordRows.RecordsDescribeResults | internal/report/record.go:94-131 | every result that was measured or carries a class has a record with its columns, and every record is one's |
| RecordRows.ResultsAreDeclared | cmd/sentinel/probe.go:125-133 | every result carries the address, provider and 1-based position of the first declared entry of its pair |
| RecordRows.RpcDecides | internal/report/render.go:192-197 | in a sorted file the verdict on a chain's first-listed endpoint is that of its RPC record, if there is one |
| RunInJobs.StreakColumn | internal/report/record.go:127-129 | the streak column of a liveness record is the number of failing runs the run has to count |
| Records.RecordsAreDeterministic | internal/report/record.go:132-143 | any two deliveries of one run give the identical record sequence |
| Aggregation.Aggregate | internal/report/render.go:111-166 | the aggregates are the fold of all records |
| Aggregation.Aggregates.NoteChain | internal/report/render.go:170-199 | updates exactly the record's chain entry |
| Aggregation.VantageWarning | internal/report/render.go:213-217 | warns exactly when 20 times the resolver or route failures reach the dead count |
| Aggregation.DeathCandidates | internal/report/render.go:418-453 | lists exactly the dying chains with their reason, by name, for any iteration order |
| ReportMeaning.FigureMeans | internal/report/render.go:118-198 | each of the report's numbers is the count of the records it is about |
| ReportJobs.FiguresInJobs | internal/report/render.go:118-198 | each figure of a run's report is the number of jobs it is about, by their verdicts |
| ReportJobs.MarksInJobs | internal/report/render.go:133-196 | every set and map of a run's report holds exactly what some measured job puts there; a chain has a first-listed endpoint exactly when its first RPC or EVM entry was measured |
| ReportJobs.ReasonInJobs | internal/report/render.go:437-442 | the reason given is the number of operators that answer somewhere if the chain is abandoned, and else the number of RPCs that answered |
| ReportMeaning.MarkMeans | internal/report/render.go:118-198 | each set and map holds exactly the keys some record puts there |
| ReportMeaning.AggregateIgnoresOrder | internal/report/render.go:111-166 | permuting the records changes no aggregate except the first-listed verdict |
| ReportMeaning.FirstDeadIgnoresOrder | internal/report/render.go:192-197 | that verdict is independent of the order if and only if the chain's first-listed records agree |
| ReportMeaning.AggregateConserves | internal/report/render.go:133-163 | domain totals add up to the endpoints, domain lives to the live ones, classes to the dead, overall and per domain |
| Agreement.VantageVerdictsAgree | cmd/sentinel/chaindeath.go:55-72 | on every result list the report's warning and the streak freeze coincide |
| Agreement.DisagreementIsExact | internal/report/render.go:414-446 | for every age limit and every block time: exactly when the report lists a chain the detection does not judge dead, and the other way round |
| Agreement.AgreementIsExact | cmd/sentinel/chaindeath.go:113-116 | with readable times and a limit of at least seven days everything detected is listed, and they agree on a chain except exactly when it is not abandoned, a synced RPC straddles the two limits and all others are too old |
| Agreement.DetectorsAgree | internal/report/render.go:15-17 | with a limit of seven days and whole-second times the report lists exactly the chains the detection judges dead |
| Agreement.DetectionIsReported | internal/report/render.go:176-186 | with a limit of at least seven days everything detected is listed |
| Agreement.FractionsMatter | internal/report/record.go:124-126 | at any moment that is not a full second, every run over a chain whose one RPC is exactly seven days behind is listed by the report and not detected |
| Agreement.ShortLimitIsUnreported | cmd/sentinel/chaindeath.go:31-33 | with a limit at least a second below seven days, at any time, every run over a chain with one RPC at the first whole second within seven days is detected and not listed |
| Concentration.Dominant | internal/report/render.go:55-62 | the most frequent class, smallest name on ties, whatever the iteration order |
| Concentration.DominantIsUnique | internal/report/render.go:55-62 | there is only one such answer |
| Concentration.SortedDomains | internal/report/render.go:274-287 | every domain once, by descending key, ties by ascending name |
| Concentration.RankingIsUnique | internal/report/render.go:274-287 | only one list is so ordered |
| Concentration.TopIsOptimal | internal/report/render.go:310-316 | the first k domains add up to the most that any k domains can |
| Concentration.RenderConcentration | internal/report/render.go:310-322 | one figure per threshold that exists, each the maximum over all sets of that many domains, with its percentage of all dead endpoints |
| Shares.ShareIsMost | internal/report/render.go:310-322 | a top-k figure is the most dead endpoints any k domains have between them |
| Shares.ShareOfDead | internal/report/render.go:316-320 | its percentage is out of all dead endpoints |
| EditChain.DeleteIndices | internal/github/pr.go:100-109 | deleting the collected indices highest first leaves the order-preserving filter |
| EditChain.EditChainJSON | internal/github/pr.go:65-112 | nothing exactly when no entry matches; otherwise every category filtered by its keys, in any order of categories |
| EditChain.EditIsPairFilter | internal/github/pr.go:47-80 | that filter is "drop the dead (category, address) pairs, touch no other category" if and only if no category with a bar in its name collides |
| EditChain.BarCollides | internal/github/pr.go:80-87 | removing a declared RPC endpoint that also empties an unrelated category |
| Reload.EditThenReload | cmd/sentinel/probe.go:86-123 | the pairs probed after an edit are the old ones minus the removed, in the same order |
| Reload.DedupCommutes | cmd/sentinel/probe.go:95-105 | deduplicating and dropping pairs commute, duplicates and shared addresses included |
| Reload.PruneDropsWhatWasRemoved | internal/state/state.go:154-160 | a record whose keys are job keys loses exactly the removed keys when restricted to the edited chain's jobs |
| NextRun.SavedKeysAreJobs | cmd/sentinel/main.go:228-233 | after every run the saved keys of a chain are keys of its jobs |
| NextRun.OnlyPruneForgets | cmd/sentinel/main.go:228-233 | of the keys saved before, a run drops exactly those that are no longer jobs |
| NextRun.NextRunForgets | internal/state/state.go:154-160 | the run over the edited registry drops exactly the removed keys among those saved for the chain |
| EndToEnd.ProposalTakesEffect | cmd/sentinel/prflow.go:192-204 | every proposal changes its chain file; the editor's no-op answer cannot arise |
| EndToEnd.ProposalIsUnderstood | internal/github/pr.go:73-80 | the editor knows every check a proposal names |
| EndToEnd.MergedIsNotProposedAgain | internal/state/state.go:154-160 | over the edited registry no run proposes a removed pair again |
| EndToEnd.FlippedIsReported | internal/report/render.go:414-417 | a status PR is never opened under a vantage warning; its chain is in the same run's report except exactly when all synced times are too old to the detection and not all to the report, which a limit of at least seven days excludes |
| EndToEnd.ShortLimitHidesAFlip | cmd/sentinel/chaindeath.go:31-33 | with a shorter limit a first run opens a status PR for a chain its own report does not list |
| EditAssets.LastTracePath | internal/registry/assetlist.go:79-86 | returns the last nonempty path of the decoded traces |
| EditAssets.LastTracePathJSON | internal/github/pr.go:351-359 | returns the last nonempty chain.path of the JSON values, whatever their types, as text |
| EditAssets.ReadersAgree | internal/github/pr.go:349-350 | the two resolve the same path on every traces value the loader accepts |
| EditAssets.TracesDecode | internal/registry/assetlist.go:29-57 | exactly which traces values the loader accepts |
| EditAssets.NumberIsTextToTheEditor | internal/github/pr.go:354-354 | on a value the loader rejects they can differ |
| EditAssets.LastPathMeans | internal/registry/assetlist.go:76-86 | that path is the last nonempty one, and empty exactly when there is none |
| EditAssets.LoadAssetList | internal/registry/assetlist.go:45-74 | fails on a file that does not decode; otherwise keeps exactly the assets with an ibc/ base and a trace path |
| EditAssets.CheckDenomHashes | internal/checks/ibc_hash.go:23-39 | reports exactly the loaded assets whose base is not the hash of their path |
| EditAssets.FindingsMean | internal/checks/ibc_hash.go:21-38 | load and check together find exactly the wrong assets of the file |
| EditAssets.EditAssetListJSON | internal/github/pr.go:293-347 | nothing exactly when no asset matches; otherwise every matching asset, and its units with that base, rewritten |
| HashFix.FixesApplyToTheWrong | internal/github/pr.go:299-306 | a fix matches an asset exactly when that asset's own hash is wrong |
| HashFix.FixIsComplete | internal/github/pr.go:289-292 | the edit of a file that loads still loads and has no mismatch left |
| HashFix.FixIsIdempotent | internal/github/pr.go:292-331 | a second edit with old or new findings is a no-op |
| HashFix.FixIsMinimal | internal/github/pr.go:332-345 | right assets are unchanged; a wrong one changes only its base and the units that carried it |
| HashFix.OnlyIbcIsRewritten | internal/registry/assetlist.go:59-66 | an asset whose base does not start with ibc/, or without a trace path, is never touched; any other ends up with ibc/ and the hash of its path |
| HashFix.BaseStaysListed | internal/github/pr.go:337-345 | a base listed among its denom units stays listed |
| HashFix.CheckChain | cmd/sentinel/hashpr.go:24-31 | the mismatches of one file, none when it does not load; some exactly when an IBC asset's hash is wrong |
| HashFix.RepairAssetList | cmd/sentinel/hashpr.go:82-89 | the file a PR proposes: one that differs, exactly when the file loads and some IBC hash is wrong |
| HashFlow.RunHashChecks | cmd/sentinel/hashpr.go:21-35 | lists exactly the loaded chains whose file needs repair, each with its findings |
| HashFlow.FixesChangeFiles | cmd/sentinel/hashpr.go:142-163 | every fix a run opens is for a file that loads, that the editor matches and that it changes |
| HashFlow.MergedNeedsNoRepair | internal/github/pr.go:289-292 | merging the fixes takes exactly those chains off the list and touches no other file |
| HashFlow.FixedIsNotFixedAgain | cmd/sentinel/hashpr.go:142-163 | no run over the repaired files opens a fix for any of them |
| Wire.VarintRoundTrip | internal/checks/grpc.go:237-241 | every 64-bit value is read back from its varint, whatever follows |
| WireExact.VarintIsExact | internal/checks/grpc.go:237-241 | a varint is read exactly when spelled in at most ten bytes, the tenth at most 1, with the value of its digits; overflow exactly when the tenth is larger |
| WireExact.TagIsExact | internal/checks/grpc.go:237-241 | a tag is accepted exactly when its field number lies between 1 and the largest 32-bit int |
| WireExact.StrayKindsFail | internal/checks/grpc.go:249-252 | a stray group end and the unassigned wire types are errors |
| WireExact.WrongEndFails | internal/checks/grpc.go:249-252 | a group closed by another number is an error |
| Wire.SkipsValue | internal/checks/grpc.go:249-253 | skipping a well-formed field of any kind, nested groups included, consumes exactly its bytes |
| Wire.AcceptedUpToTheLimit | internal/checks/grpc.go:249-253 | a well-formed unknown field is accepted if and only if its groups nest no deeper than the limit of 10000 allows |
| Wire.ValueExtends | internal/checks/grpc.go:249-253 | a successful skip does not depend on the bytes behind the value |
| NodeInfo.DecodeGetNodeInfoNetwork | internal/checks/grpc.go:235-256 | finds the first node info, or says precisely why not; the loop ends because each step consumes a byte |
| NodeInfo.DecodeDefaultNodeInfoNetwork | internal/checks/grpc.go:258-279 | the same for the network inside it |
| NodeInfoExact.InnerIsExact | internal/checks/grpc.go:258-279 | a node info gives a network exactly when field 4 stands behind skipped fields, "not found" exactly when every field is skipped, and an error otherwise |
| NodeInfoExact.DecodeIsExact | internal/checks/grpc.go:235-279 | a response gives a network exactly when field 1 stands behind skipped fields and holds field 4 behind skipped fields; both "not found" answers are as exact |
| NodeInfoExact.UnsetIsReported | internal/checks/grpc.go:255-278 | an encoded response that leaves the network, or the node info, unset is reported as such |
| NodeInfo.DecodeInvertsEncode | internal/checks/grpc_test.go:52-58 | decoding returns the encoded network behind any unknown fields at both levels and before any further bytes |
| NodeInfo.TruncationIsRejected | internal/checks/grpc.go:235-279 | every proper prefix of a response is rejected |
| GrpcWeb.Body.ReadFull | internal/checks/grpc_web.go:72-87 | fills the whole buffer from the front of the body, or fails |
| GrpcWeb.ProbeBody | internal/checks/grpc_web.go:72-95 | reads the first frame: short header, trailers, short body, bad payload or the network |
| GrpcWeb.AnswerIsExact | internal/checks/grpc_web.go:72-95 | a network is answered exactly when the body starts with a data frame whose message decodes to it, trailers exactly when the first of five bytes is no data flag |
| GrpcWeb.ProbeInvertsServer | internal/checks/grpc_web_test.go:17-38 | what a server frames and encodes is what the probe reports, for any data flag and trailing bytes |
| GrpcWeb.TruncatedFrameIsRejected | internal/checks/grpc_web.go:72-87 | a frame cut short is never an answer |
| Branches.AtoiInvertsItoa | internal/github/client.go:122-126 | printing and parsing a 64-bit int are inverse |
| Branches.LeadingZero | internal/github/client.go:122-126 | zero padding does not change the number |
| Branches.AtoiIsExact | internal/github/client.go:122-126 | a number is exactly a string of digits with at most one sign that fits into 64 bits |
| Branches.NextBranchN | internal/github/client.go:107-132 | returns one more than the highest parsed suffix, wrapping like an int |
| Branches.NextIsOneMore | internal/github/client.go:120-131 | below the largest int the number is 1, or exactly one more than one some ref carries, and larger than all |
| Branches.BranchIsFresh | internal/github/client.go:105-132 | the branch is absent from any ref list, except exactly when the largest int is taken and the wrapped name exists too |
| Branches.NumbersIncrease | internal/github/client.go:105-132 | while refs are only added, numbers of one prefix strictly increase |
| Branches.RefNamesDiffer | internal/github/pr.go:230-234 | different prefixes or numbers never give the same ref |

## Left out

- Sentinel.Run: dry runs, runs without a state directory, a missing token or repository, and failing saves are not modelled; the state saved before the PR flows is not distinguished from the one saved after them.
- Sentinel.LoadStateMap: unreadable state files and `--reset-state` are left out, so a chain's record is the saved one or a fresh one.
- State.ChainState.Update: the chain ID, schema version and save time that the record also carries are left out; no decision reads them.
- WorkerPool.RunWorkers: probe timeouts and cancellation are part of the arbitrary probe; the counts printed per chain by `collectResults` are left out.
- ChainDeath.BuildChainDeathFacts: the per-check tallies and the sample host, which only fill the text of a PR, are left out.
- ChainDeath.CheckVantage: the percentage is an exact rational, not a rounded floating-point number.
- DeathMeaning.BuildStatusEvidence: the class lines and the sample host, which are text for the PR body, are left out.
- Openings.OpenHashPRs: which chains have mismatches is an input of the run; `HashFlow.ChecksFiles` ties it to the files.
- Records.Build: the vantage, commit, concurrency, timeout, latency, host and chain ID columns are left out; timestamps are numbers of seconds rather than text.
- Records.RecordsOf: the registrable domain is an arbitrary function of the address, so host and IP parsing are left out.
- Aggregation.Aggregate: the domain, remedy, class and quality tables print these numbers and are left out as presentation.
- EditChain.EditChainJSON: works on the JSON tree; file errors, text formatting and path quoting for category names are left out, and each category is a list.
- EditAssets.EditAssetListJSON: works on the JSON tree; file errors and text formatting are left out, and only traces are read as JSON values.
- EditAssets.ReadersAgree: an object has each member once, under its exact name; encoding/json also accepts repeated members and other capitalisations, which are left out.
- WholeRun.RunIsDeterministic: GitHub is taken to answer alike for the same entries in another order.
- HashFix.FixIsComplete: SHA-256 (FIPS 180-4, section 6.2) is an uninterpreted function.
- Wire.ConsumeVarint: the protowire library is not part of the repository; its consuming functions are written from the wire format and the library's documented errors.
- GrpcWeb.ProbeBody: the HTTP request, status codes and the native gRPC call are left out.
- Branches.NextBranchN: GitHub errors and paging are left out; the refs are what the call returned.
- Branches.NumbersIncrease: stated below the largest int, where the wrap-around of `NextBranchN` breaks it.
- GitHub itself (branches, commits, labels, title search) is an oracle that accepts a request or not.
- Failure classification, the network probes, rendering, command-line parsing, logging, scripts and container files would add only members settled by reading one branch.
