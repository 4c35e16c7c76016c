# Verified model of the CFI platform's self-contained algorithms

A Dafny model of the parts of the repository whose behaviour is fixed by the code at hand: the
asynchronous transaction stream, the serialisers and aggregation of model parameters, the AST mutation
engine, the `.env` secret files with their guarded writes and the provisioning built on them, the
fail-closed dependency audit, the matching of URL templates, the reconciliation of per-seed aggregates
and the allocation of laundering typologies.  `dafny verify dfyconfig.toml` checks everything.

Code that updates state step by step is modelled by classes and loops, each proved equal to a
specification function; the theorems are about those functions and about every run of them.

| modules | what they model |
|---|---|
| StreamProtocol, StreamTheorems, StreamTasks, StreamEvents, StreamFairness | producer, bounded queue, workers and main task under every interleaving and every outcome of the calls |
| LatencyReport, Sorting | percentiles and tallies reported at the end of a stream run |
| ParameterVectors, ParameterLayout, ModelDeltas, ModelParameters | flat vectors and shape lists of model parameters, deltas, federated averaging; parameters updated in place |
| RobustAggregation, Krum, KrumScores | trimmed mean, coordinate median and Krum against arbitrary client updates |
| MutationTrees, MutationPlaces, MutationSites, MutationSemantics, MutationEngine | syntax trees, candidates, mutants, their meaning, and the recorded report |
| EnvFile, EnvLines, SecretFiles, SecretGuards | printing and loading of `.env` files, guarded writes |
| Provisioning, Lockouts | registering or verifying institutional principals, logins and their lockouts |
| AuditClassifier, AuditPipeline, AuditCommands | classification of audit results, retries with backoff, fallback |
| UrlTemplates, UrlIdempotence, ContractAudit | normalising URL templates, matching frontend calls with backend routes |
| AggregateCheck | mean and standard deviation against per-seed values |
| LaunderingAllocation | typology counts, rows and calendar of the synthetic AML data |
| Options, Reals, Text | optional values, sums and rounding, lines and searching; shared by the others |

## Where the code and its documentation differ

The model follows the code.  Each point has a lemma with a concrete input, an exact condition, or both.

- Provisioning preserves *active* principals, as its documentation says; a principal that is not active is
  hidden by `get_user`, so a call without rotation registers over it and makes it active again
  (`Provisioning.KeepsExactly`, `Provisioning.InactivePrincipalReplaced`).
- The audit contract says a vulnerability report is never treated as a network failure.  Network markers
  are tested first, so a report that also says, for example, "timeout" is retried
  (`AuditClassifier.FindingTakenForOutage`), and the run can end green (`AuditPipeline.ReportedFindingGreen`);
  when a report does end the run with 1 is `AuditPipeline.FindingFailsExactly`.
- Mutating every operator of a comparison with several links does not always negate it.  For operands without
  operators of their own and operators of the tables it does exactly when every link evaluates and holds, or
  every link evaluates and fails, or the first link raises (`MutationSemantics.ComparisonNegatedExactly`).  Links
  that disagree break it (`MutationSemantics.LongChainNotNegated`), and so does a later link that raises behind
  a first one that fails, since the mutant no longer skips it (`MutationSemantics.RaisingChainNotNegated`).
- With no workers and at least one event the stream pipeline never finishes; otherwise it always can
  (`StreamTheorems.CompletionExactly`).
- An existing `.env` file that cannot be read counts as empty and is overwritten
  (`SecretGuards.UnreadableOverwritten`; when an env file is kept is `SecretGuards.EnvFileKeptExactly`).
- Where the password verification cannot be imported, provisioning logs in instead, and then refuses a right
  password while the name or the address is locked (`Provisioning.VerifiedExactly`).
- The URL normaliser is not idempotent on every string: `$${a}` takes two rounds.  It is exactly where no
  parameter follows two dollar signs (`UrlIdempotence.IdempotentExactly`).
- A trimming fraction so far below zero that the count is negative keeps the highest values only, and then one
  arbitrary client suffices (`RobustAggregation.TrimmedMeanBreaks`).
- With a single seed any reported standard deviation is accepted (`AggregateCheck.SingleSeedUnchecked`).
- `flatten_parameters` fails on a model with every parameter frozen, so such a model has no delta, although
  applying the empty one would be fine (`ModelDeltas.DeltaExactly`).
- A negative initial backoff makes the first retry fail in its sleep (`AuditPipeline.SleepFailsExactly`).

## Model

| member | source | states |
|---|---|---|
| StreamProtocol.QueueCapacity | scripts/transaction_stream.py:180 | ten times the target rate, cut towards zero; the queue is bounded exactly when the rate is at least a tenth per second |
| StreamProtocol.TakeInv | scripts/transaction_stream.py:102-104 | taking the head of the queue keeps the invariant: order, per-event location counts, counters |
| StreamProtocol.SettleInv | scripts/transaction_stream.py:122-154 | ending a scoring, with any outcome, keeps the invariant |
| StreamProtocol.OpenWhileScoring | scripts/transaction_stream.py:153-154 | while a worker scores the count of open tasks is positive, so its `task_done` never raises |
| StreamProtocol.CancelInv | scripts/transaction_stream.py:216-221 | a cancellation always finds an idle worker, and keeps the invariant |
| StreamProtocol.StepInv | scripts/transaction_stream.py:66-154 | every action of every task keeps the invariant |
| StreamProtocol.RunInv | scripts/transaction_stream.py:66-221 | every run keeps the invariant |
| StreamTheorems.RunKeepsSetup | scripts/transaction_stream.py:66-154 | no run changes the capacity, the number of workers or the total of events produced and to come; produced and dequeued sequences only grow |
| StreamTheorems.Conservation | scripts/transaction_stream.py:66-223 | at every point of every run: dequeued followed by queued is produced, in order; each event is queued, in flight, scored or failed as often as produced; produced = scored + errors + queued + in flight; as many decisions as scored; open tasks = queued + in flight; a positive capacity is never exceeded; nothing is lost to a cancellation |
| StreamTheorems.DecisionsFollowOutcomes | scripts/transaction_stream.py:122-152 | the i-th decision carries the i-th successful reply and the identity of the i-th scored event; the error counter is the number of other outcomes |
| StreamEvents.HandledAsOffered | scripts/transaction_stream.py:70-104 | at every point of every run the events taken, those queued and the one the producer waits with are, in order, the events the producer built |
| StreamEvents.DecisionsSupplied | scripts/transaction_stream.py:73-152 | under any schedule every decision carries the identity of an event supplied to the producer and the answer of a reply supplied to a worker |
| StreamEvents.CapacityExactly | scripts/transaction_stream.py:86-180 | the queue can hold any number of the events up to a positive capacity, and no more |
| StreamTheorems.ExactlyOnce | scripts/transaction_stream.py:102-154 | with distinct ids no event is decided twice, and a decided event is neither queued nor in flight nor failed |
| StreamTheorems.ExitIsFinal | scripts/transaction_stream.py:105-107 | once a worker has left its loop the producer is done and the queue is empty for the rest of every run |
| StreamTheorems.CancellationInterruptsNothing | scripts/transaction_stream.py:216-221 | `join` returns only with an empty queue and nobody scoring, and each cancellation changes nothing but the cancelled worker |
| StreamTheorems.FinishedAccounting | scripts/transaction_stream.py:216-223 | a finished run has produced every event and scored or failed each exactly once |
| StreamTheorems.Progress | scripts/transaction_stream.py:66-223 | with a worker, an unfinished pipeline always has an action other than polling |
| StreamTheorems.StepWork | scripts/transaction_stream.py:66-223 | polling changes nothing, every other action lowers a measure |
| StreamTheorems.RunsAreBounded | scripts/transaction_stream.py:66-223 | a run has at most as many non-polling actions as its first state's measure says |
| StreamTheorems.CanBeFinished | scripts/transaction_stream.py:216-223 | with a worker, every reachable state has a run to the end |
| StreamTheorems.CompletionExactly | scripts/transaction_stream.py:170-223 | from any reachable state the end can be reached if and only if there is a worker or there are no events |
| StreamTheorems.StuckExactly | scripts/transaction_stream.py:170-223 | a reachable state has no action other than polling if and only if it is finished, or there is no worker and the producer waits at a full queue or `join` waits for open tasks; the latter needs events |
| StreamTasks.ScheduleIsRun | scripts/transaction_stream.py:66-223 | whatever order the event loop resumes the tasks in, the result is a run of the state machine, each action taken in a turn of its own task with the event or reply supplied there |
| StreamTasks.Pipeline.constructor | scripts/transaction_stream.py:180-185 | the initial queue, counters and tasks |
| StreamTasks.Pipeline.PutNowait | scripts/transaction_stream.py:86 | the event goes to the end of the queue and opens a task |
| StreamTasks.Pipeline.GetNowait | scripts/transaction_stream.py:104-105 | answers the head of the queue, or nothing exactly when it is empty |
| StreamTasks.Pipeline.ResumeProducer | scripts/transaction_stream.py:70-92 | the producer's code from one await to the next is its action in the state machine |
| StreamTasks.Pipeline.ResumeWorker | scripts/transaction_stream.py:102-154 | the same for a worker, including cancellation |
| StreamTasks.Pipeline.PollQueue | scripts/transaction_stream.py:103-109 | take an event, leave, or sleep |
| StreamTasks.Pipeline.SettleScoring | scripts/transaction_stream.py:122-154 | decision, counters and `task_done` at the end of one scoring |
| StreamTasks.Pipeline.ResumeMain | scripts/transaction_stream.py:216-223 | await the producer, join, cancel, gather, in this order |
| StreamTasks.Pipeline.Drive | scripts/transaction_stream.py:208-223 | any schedule of the tasks ends in the state the state machine says, with the invariant |
| StreamEvents.RunStreamPipeline | scripts/transaction_stream.py:170-223 | a pipeline that finishes returns one decision per scored event, scored plus errors is the number of events, and each decision is about a supplied event and says what a supplied reply answered |
| StreamFairness.FairRoundWorks | scripts/transaction_stream.py:66-223 | a round that resumes every task at least once lowers the measure of an unfinished pipeline |
| StreamFairness.RoundsFinish | scripts/transaction_stream.py:66-223 | from any state satisfying the invariant, as many fair rounds as the measure finish the pipeline |
| StreamFairness.FairSchedulesFinish | scripts/transaction_stream.py:170-223 | with a worker, 4·events + workers + 4 fair rounds finish the pipeline, whatever the order and outcomes, with every event scored or counted as error |
| LatencyReport.PercentileSplits | scripts/transaction_stream.py:228-234 | a reported percentile is one of the recorded latencies; more than p of all, or all, are at or below it, and all but p at or above it |
| LatencyReport.TwoDigitsNear | scripts/transaction_stream.py:143-144 | a recorded figure is the nearest hundredth, a half going to the even one |
| LatencyReport.RoundedOnce | scripts/transaction_stream.py:143-234 | rounding a percentile of recorded latencies to two digits changes nothing, as they were rounded when recorded |
| LatencyReport.PercentileMonotone | scripts/transaction_stream.py:233-234 | percentiles grow with p |
| LatencyReport.PercentileExtremes | scripts/transaction_stream.py:233-234 | the percentiles for 0 and 1 bound every sample |
| LatencyReport.CountDecisions | scripts/transaction_stream.py:236-240 | each tally says of every label at how many decisions it stands, and sums to the number of decisions |
| ParameterVectors.UnflattenFlatten | benchmarks/byzantine/model.py:57-83 | cutting up a model's flat vector gives its trainable parameters back |
| ParameterVectors.FlattenUnflatten | benchmarks/byzantine/model.py:66-83 | a vector is accepted if and only if its length is the number of trainable elements; flattening the result gives it back, in the template's names and shapes; which error a shorter or a longer one meets |
| ParameterLayout.NumelMultiplies | backend/benchmark_real_data.py:210-212 | the number of elements of a shape is one for a scalar, the dimension for a vector, and multiplicative |
| ParameterLayout.FlatAt | benchmarks/byzantine/model.py:57-63 | the elements of each trainable parameter stand together in the flat vector, behind those of the trainable ones before it |
| ParameterLayout.ReadAt | backend/benchmark_real_data.py:200-205 | the i-th shape read is that of the i-th parameter, and its elements stand behind those of all before it |
| ParameterLayout.LoadExactly | backend/benchmark_real_data.py:207-219 | a load assigns to each parameter it reaches its own slice and shape, leaves the others, and gets to the end if and only if it reaches all that have a shape |
| ParameterVectors.SetAfterGet | backend/benchmark_real_data.py:200-219 | loading what was read from one model makes any other of the same number of parameters a copy of it |
| ParameterVectors.GetAfterSetExactly | backend/benchmark_real_data.py:200-219 | what is read after a load is what was loaded if and only if there is one shape a parameter and the shapes use up the vector |
| ParameterVectors.SerialisersAgree | benchmarks/byzantine/model.py:57-63 | with nothing frozen both serialisers give the same flat sequence |
| ModelDeltas.ApplyAdds | benchmarks/byzantine/model.py:93-99 | a delta is applied if and only if it has the length of the flat vector; it is then added to it, and names, shapes and frozen parameters stay |
| ModelDeltas.ApplyOwnDelta | benchmarks/byzantine/model.py:86-99 | applying a client's delta to the global model yields the client's trainable parameters and the global frozen ones |
| ModelDeltas.DeltaExactly | benchmarks/byzantine/model.py:57-90 | between models of one architecture a delta exists if and only if something is trainable |
| ModelDeltas.DeltaAt | benchmarks/byzantine/model.py:86-90 | for any two models: when a delta exists, sizes broadcast included, and what each element is |
| ModelDeltas.WeightedDeltasAverage | benchmarks/byzantine/model.py:86-99 | applying a weighted sum of client deltas with weights of sum 1 yields the same weighted average of the client models |
| ModelDeltas.MeanIsEqualWeights | benchmarks/byzantine/aggregators.py:57 | the plain mean is the combination with equal weights of sum 1 |
| ModelDeltas.DotIsSum | benchmarks/byzantine/aggregators.py:50-55 | a combination multiplies each weight with the value of its own client |
| ModelDeltas.SharesProportional | benchmarks/byzantine/aggregators.py:51 | each weight is in proportion to the samples of its client |
| ModelDeltas.FedAvgRound | benchmarks/byzantine/aggregators.py:35-57 | the aggregated deltas, applied, give the sample-weighted average of the models, or their plain mean without weights |
| ModelParameters.FlattenParameters | benchmarks/byzantine/model.py:57-63 | the appending loop computes the flat vector, or the error of concatenating nothing |
| ModelParameters.UnflattenToStateDict | benchmarks/byzantine/model.py:66-83 | the loop with a running offset computes the cutting, with its errors |
| ModelParameters.ApplyModelDelta | benchmarks/byzantine/model.py:93-99 | parameters updated in place become the sum; on an error none has changed |
| ModelParameters.ReadParams | backend/benchmark_real_data.py:200-205 | the loop reads all shapes and the concatenated elements |
| ModelParameters.CountElements | backend/benchmark_real_data.py:210-212 | the product of a shape's dimensions |
| ModelParameters.LoadParams | backend/benchmark_real_data.py:207-219 | the loop assigns parameter by parameter, up to the shorter list or the first that does not fit |
| RobustAggregation.RankBounded | benchmarks/byzantine/aggregators.py:60-91 | an order statistic with at least f values on either side lies within the honest range, f being the number of arbitrary values |
| RobustAggregation.TrimmedMeanRefused | benchmarks/byzantine/aggregators.py:76-83 | refused if and only if 2·⌊n·beta⌋ ≥ n, which no fraction below one half does |
| RobustAggregation.TrimmedMeanExactly | benchmarks/byzantine/aggregators.py:85-91 | the result is the mean of all values if k is zero, else of the values in ascending order without k at either end, however they are sorted, and of the highest only if k is negative |
| RobustAggregation.TrimmedMeanRobust | benchmarks/byzantine/aggregators.py:68-91 | for every fraction `beta`: when the arbitrary clients are at most that fraction, whatever they send, the result lies within the honest range |
| RobustAggregation.TrimmedMeanBreaks | benchmarks/byzantine/aggregators.py:68-91 | the bound is tight: against any honest values, int(n·beta) + 1 arbitrary ones, or one when that is negative, take the result beyond any bound, for every n and beta that is not refused |
| RobustAggregation.MedianRobust | benchmarks/byzantine/aggregators.py:60-65 | with f < n/2 arbitrary values the median lies within the honest range |
| RobustAggregation.MedianSplits | benchmarks/byzantine/aggregators.py:64 | the median is one of the values, with at least half of all at or below it and more than half at or above |
| RobustAggregation.MedianBreaks | benchmarks/byzantine/aggregators.py:60-65 | the breakdown point is tight: f arbitrary values against any f or fewer honest ones take the median below any bound |
| Krum.KrumScores | benchmarks/byzantine/aggregators.py:94-116 | the loop sums, for each update, its smallest max(1, n − f − 2) squared distances to others |
| KrumScores.ScoresAreLeast | benchmarks/byzantine/aggregators.py:98-114 | each score is the least sum of distances to n − f − 2 other updates, one if that is less and all if it is more: no choice sums to less and some choice attains it |
| KrumScores.DistanceIsSum | benchmarks/byzantine/aggregators.py:102-103 | a distance is the sum over the coordinates of the squared differences, and symmetric |
| KrumScores.SelectedFirst | benchmarks/byzantine/aggregators.py:132-141 | an update is selected if and only if n ≥ 2f + 3, and it is the first of those with the least score |
| Krum.HonestNeighbour | benchmarks/byzantine/aggregators.py:106-114 | more nearest neighbours than arbitrary clients hold an honest one, no farther than the score |
| Krum.HonestScore | benchmarks/byzantine/aggregators.py:106-114 | an honest score is at most the number of neighbours times the largest squared distance among honest updates |
| Krum.KrumRobust | benchmarks/byzantine/aggregators.py:119-141 | for n ≥ 2f + 3 and at most f arbitrary clients, the selected update is no farther from some other honest one than any score, so no farther than n − f − 2 times the largest squared distance among honest updates |
| MutationTrees.CandidateOperators | scripts/ast_mutation_engine.py:71-90 | the candidates are the operators of the tree, one each, in pre-order |
| MutationPlaces.CandidatesStand | scripts/ast_mutation_engine.py:75-87 | each candidate names an operator of the node at its path, and the line of that node |
| MutationPlaces.OperatorHasCandidate | scripts/ast_mutation_engine.py:75-87 | every operator of every node has its candidate |
| MutationPlaces.PreOrder | scripts/ast_mutation_engine.py:75-87 | a node comes before what is below it, a child before its later siblings, and the operators of a node in their own order |
| MutationTrees.ShapePlaces | scripts/ast_mutation_engine.py:331-333 | trees that differ in operators only have their candidates in the same places |
| MutationTrees.ShapeAndOperatorsDetermine | scripts/ast_mutation_engine.py:71-90 | shape and operators together determine a tree |
| MutationSites.MutantFlips | scripts/ast_mutation_engine.py:322-354 | the i-th mutant keeps the shape and flips the i-th operator only |
| MutationSites.SingleSite | scripts/ast_mutation_engine.py:322-354 | the i-th mutant has the same candidate list but for the operator of the i-th, differs from the original if and only if that operator is in a table, and mutating it again restores the original |
| MutationSites.MutateAtFlips | scripts/ast_mutation_engine.py:322-354 | mutating at a list of distinct indices flips exactly those operators |
| MutationSites.FlipEverywhereFlips | scripts/ast_mutation_engine.py:92-101 | the recursive rewriting flips every operator and keeps the shape |
| MutationSites.AnyOrder | scripts/ast_mutation_engine.py:322-354 | mutating at every index, in any order, is the recursive rewriting |
| MutationSemantics.NegatedEverywhere | scripts/ast_mutation_engine.py:92-101 | rewriting every operator of a condition of and, or, not, all, any and single comparisons negates its value in every environment, and raises where it raised |
| MutationSemantics.MutatingEverywhereNegates | scripts/ast_mutation_engine.py:322-354 | so does mutating at every candidate index, in any order |
| MutationSemantics.ComparisonNegatedExactly | scripts/ast_mutation_engine.py:75-78 | a comparison of any number of terms by operators of the tables is negated if and only if every link evaluates and holds, every link evaluates and fails, or the first link raises; later operands and links may raise or be skipped |
| MutationSemantics.ChainTrueExactly | scripts/ast_mutation_engine.py:75-78 | despite short circuits a chain is true if and only if every link evaluates and holds |
| MutationSemantics.LongChainNotNegated | scripts/ast_mutation_engine.py:75-78 | the node `a < b < c` with 1, 3, 2 and its mutation both evaluate to false |
| MutationSemantics.RaisingChainNotNegated | scripts/ast_mutation_engine.py:75-78 | the same node with 1, 0 and a third value that cannot be ordered is false, its mutation raises |
| MutationEngine.CandidateCollector.Visit | scripts/ast_mutation_engine.py:75-87 | visiting a tree appends its candidates, in pre-order and with their places |
| MutationEngine.CandidateCollector.GenericVisit | scripts/ast_mutation_engine.py:78-87 | the same for the children of a node |
| MutationEngine.ReportSound | scripts/ast_mutation_engine.py:359-401 | a record states the line, the operator and its replacement, and the fate of the mutant of its own candidate with what killed it; records come in pre-order |
| MutationEngine.ReportComplete | scripts/ast_mutation_engine.py:336-356 | every candidate is recorded, but no comparison by identity |
| MutationEngine.Mutator.TestMutants | scripts/ast_mutation_engine.py:321-401 | the loop appends this report to the records |
| EnvFile.FormatEnv | scripts/generate_consortium_deployment_secrets.py:249-267 | the loop prints header, kept pairs and final line end |
| EnvFile.LoadEnv | scripts/bootstrap_consortium_deployment.py:36-47 | the loop loads a text's pairs, a later one replacing an earlier one |
| EnvFile.LoadedClean | scripts/bootstrap_consortium_deployment.py:41-46 | whatever the text, loaded keys and values are one-line and trimmed, and keys hold no `=` and do not start with `#` |
| EnvLines.ParsedBetweenBlanks | scripts/bootstrap_consortium_deployment.py:42-46 | a key and a value with any blanks around each are read as that key and value, on every line |
| EnvFile.CleanRoundTrip | scripts/bootstrap_consortium_deployment.py:36-47 | pairs of that kind load back under any header of ignorable lines, values with `=` included |
| EnvFile.RoundTripExactly | scripts/generate_consortium_deployment_secrets.py:249-271 | loading what was printed gives back the kept pairs if and only if each of them is of that kind |
| SecretFiles.SecretStore.EnsureSafeTarget | scripts/generate_consortium_deployment_secrets.py:174-194 | the check on the file's state is the guard |
| SecretFiles.SecretStore.WriteIsolatedKeyFiles | scripts/generate_consortium_deployment_secrets.py:197-238 | the loop over banks and files changes the disk as specified, up to the first refusal |
| SecretFiles.SecretStore.WriteEnvFile | scripts/generate_consortium_deployment_secrets.py:241-272 | guard, then write |
| SecretFiles.SecretStore.GenerateSecrets | scripts/generate_consortium_deployment_secrets.py:307-321 | the order of guard, custody files and environment file |
| SecretGuards.GuardRefusesExactly | scripts/generate_consortium_deployment_secrets.py:174-194 | the guard refuses exactly the readable files that are not blank, without force; the markers never decide |
| SecretGuards.NothingLost | scripts/generate_consortium_deployment_secrets.py:311-321 | without force, on every exit, every non-empty custody file, a readable non-blank environment file and all other files are as before |
| SecretGuards.OthersUntouched | scripts/generate_consortium_deployment_secrets.py:311-321 | with or without force, custody on or off, on every exit only the env file and the custody files are written |
| SecretGuards.RefusedTouchesNothing | scripts/generate_consortium_deployment_secrets.py:312 | a refusal by the guard comes before anything is written |
| SecretGuards.WithoutCustody | scripts/generate_consortium_deployment_secrets.py:316-318 | for every force, with custody off: the program succeeds if and only if the guard lets the env path pass, and otherwise writes nothing |
| SecretGuards.WholeReadBack | scripts/generate_consortium_deployment_secrets.py:316-318 | then the env file loads to all variables, signing keys included, if and only if all are of the kind that survives printing |
| SecretGuards.VariableReadBack | scripts/generate_consortium_deployment_secrets.py:316-318 | so every variable can be read back, each signing key among them |
| SecretGuards.EnvFileKeptExactly | scripts/generate_consortium_deployment_secrets.py:311-321 | without force an env file apart from the custody files is kept if and only if the run is stopped or writes the very same text |
| SecretGuards.UnreadableOverwritten | scripts/generate_consortium_deployment_secrets.py:178-190 | a secret file that cannot be read is overwritten without force |
| SecretGuards.CustodyWritten | scripts/generate_consortium_deployment_secrets.py:197-238 | custody files are written if and only if no variable is missing and, without force, all are absent or empty; then both files of each bank hold its key and the registry matches |
| SecretGuards.CustodyUntil | scripts/generate_consortium_deployment_secrets.py:209-231 | without force the custody files are written, bank after bank and the registry last, up to the first that is not empty, which is named; that one and all later ones stay |
| SecretGuards.MissingVariable | scripts/generate_consortium_deployment_secrets.py:204-235 | a missing signing key stops before the first write, a missing registry when its file is open and empty |
| SecretGuards.SucceedsExactly | scripts/generate_consortium_deployment_secrets.py:311-321 | the whole program succeeds if and only if no variable is missing, the guard lets the env path pass, and without force custody files are absent or empty and an env path among them was given a blank key |
| SecretGuards.InPlace | scripts/generate_consortium_deployment_secrets.py:311-321 | after success the env file holds the stripped text and every other custody file its key or the registry |
| SecretGuards.LoadedWithoutSigningKeys | scripts/generate_consortium_deployment_secrets.py:257-264 | loading the stripped file gives every other variable its value and none of the three signing keys |
| Provisioning.AuthService.GetUser | backend/app/infrastructure/security/durable_account_store.py:516-530 | finds a principal under its normalised name, hiding those not active unless asked, and fails on a corrupted store |
| Provisioning.AuthService.RegisterUser | backend/app/infrastructure/security/auth_service.py:325-365 | replaces the principal under the normalised name |
| Provisioning.AuthService.Login | backend/app/infrastructure/security/auth_service.py:468-542 | refused while name or address is locked, each at the time it is checked, or the store is corrupted; a failure is counted under both, a success clears both |
| Provisioning.AuthService.ProvisionOrVerify | scripts/bootstrap_consortium_deployment.py:181-232 | registers, verifies directly or by a login, or refuses as specified; lockouts change as the login says |
| Provisioning.KeepsExactly | scripts/bootstrap_consortium_deployment.py:191-232 | without rotation an existing principal is unchanged unless, the store being intact, it is an inactive one named by the call with a non-empty password, and then it is changed |
| Provisioning.InactivePrincipalReplaced | scripts/bootstrap_consortium_deployment.py:199-207 | a deactivated principal of another bank taken over without rotation |
| Provisioning.GrantedMatches | scripts/bootstrap_consortium_deployment.py:214-232 | a granted call returns the stored principal, active, of the requested bank and answering to the password; all others are untouched |
| Provisioning.GrantedExactly | scripts/bootstrap_consortium_deployment.py:199-232 | for all calls: granted if and only if the principal is verified, or there is no active one or rotation is allowed, the password is not empty and the store intact |
| Provisioning.RefusedExactly | scripts/bootstrap_consortium_deployment.py:199-232 | which refusal any other call meets, and that it changes no principal |
| Provisioning.RegisteredAnew | scripts/bootstrap_consortium_deployment.py:199-232 | a call granted without verification, by rotation or for a new name, stores exactly the requested bank, roles, clearance and the hash of the requested password, and nothing of what was there |
| Provisioning.VerifiedKept | scripts/bootstrap_consortium_deployment.py:214-217 | a verified principal is returned and kept, and its failures and lock are forgotten |
| Provisioning.FailedLoginCounted | backend/app/infrastructure/security/auth_service.py:519-531 | a login with a wrong password is one more failure of name and address, and locks the name if and only if that makes enough |
| Provisioning.LockedOutCountsNothing | backend/app/infrastructure/security/auth_service.py:477-486 | a login under a locked name is refused without being counted |
| Provisioning.DirectCountsNothing | scripts/bootstrap_consortium_deployment.py:209-225 | where verification is direct, a wrong password is not counted |
| Provisioning.VerifiedExactly | scripts/bootstrap_consortium_deployment.py:209-224 | an active principal is verified if and only if bank and password are right, the store is found intact and, where a login is needed, its status is active and neither name nor address is locked |
| Lockouts.LockoutManager.CheckLockout | backend/app/infrastructure/security/auth_service.py:118-152 | whether an identifier is locked; expired locks and old failures are forgotten |
| Lockouts.LockoutManager.RecordFailure | backend/app/infrastructure/security/auth_service.py:80-116 | the failure joins the recent ones, and enough of them lock the identifier |
| Lockouts.LockoutManager.Reset | backend/app/infrastructure/security/auth_service.py:154-159 | failures and lock of the identifier are forgotten |
| Lockouts.CheckedExactly | backend/app/infrastructure/security/auth_service.py:118-143 | a check keeps a lock that runs, and otherwise leaves no lock and just the recent failures, none where a lock has run out; other identifiers stay |
| Lockouts.BurstLocksExactly | backend/app/infrastructure/security/auth_service.py:80-116 | failures within one period on a clean identifier are all remembered, and lock it if and only if they reach the maximum, until one period after the last |
| Provisioning.ActiveKept | scripts/bootstrap_consortium_deployment.py:191-195 | no sequence of calls without rotation changes an active principal |
| Provisioning.GrantedStay | scripts/bootstrap_consortium_deployment.py:214-232 | after a granted sequence without rotation every request still finds its principal |
| Provisioning.ReplayChangesNothing | scripts/bootstrap_consortium_deployment.py:214-217 | replaying it changes no principal, and is granted again if and only if the store is found intact and, where logins are needed, no name is locked when its first call comes, nor the address at the first call |
| AuditClassifier.ContainsJoined | scripts/run_pip_audit.py:88-95 | a marker without a line break occurs in the joined streams if and only if it occurs in one of them |
| AuditClassifier.ClassifiedByStream | scripts/run_pip_audit.py:83-100 | each class as an if-and-only-if over the return code and the markers each stream shows |
| AuditClassifier.FindingTakenForOutage | scripts/run_pip_audit.py:90-96 | a report naming a CVE and a timeout is classified as transient |
| AuditPipeline.BuildCommand | scripts/run_pip_audit.py:113-138 | the extending loop builds the command with one flag pair for each non-blank ignored id |
| AuditCommands.CommandExactly | scripts/run_pip_audit.py:120-138 | a command is the fixed part with the requirements file behind `-r`, then `-s osv` if and only if the service is OSV, then a flag of its own for each non-blank id, stripped, in order |
| AuditCommands.ServiceAsked | scripts/run_pip_audit.py:154-212 | in every run the calls up to the maximum of retries ask PyPI, the one after them OSV, all about the same file |
| AuditPipeline.RunAuditPipeline | scripts/run_pip_audit.py:141-233 | for every executor, the trace is one of the four admitted shapes: transient calls then one that is not; all transient without fallback; all transient then one to OSV; a failing sleep |
| AuditPipeline.RunUnique | scripts/run_pip_audit.py:141-233 | the trace predicate determines the trace |
| AuditPipeline.GreenExactly | scripts/run_pip_audit.py:164-233 | the result is 0 if and only if the last call returned 0 |
| AuditCommands.ExitExactly | scripts/run_pip_audit.py:164-233 | the code of every run that is not cut short: 0 after a clean scan, 1 after a report without network markers, 2 when PyPI failed without fallback, else what the tool returned |
| AuditPipeline.FindingEndsRun | scripts/run_pip_audit.py:170-177 | a result classified as vulnerability is the last call, and the result is 1 |
| AuditPipeline.FindingFailsExactly | scripts/run_pip_audit.py:90-233 | a failed call showing a vulnerability marker ends the run with 1 if and only if it shows no network marker, or it is the OSV call and its return code is 1 |
| AuditPipeline.ReportedFindingGreen | scripts/run_pip_audit.py:90-168 | a first scan reporting a CVE and a timeout and a clean second one make a green run |
| AuditPipeline.CallsBounded | scripts/run_pip_audit.py:154-212 | at most one call more than the attempts, PyPI before OSV, and OSV if and only if fallback is on and every attempt was transient |
| AuditPipeline.SleepFailsExactly | scripts/run_pip_audit.py:195-198 | the run dies in its sleep if and only if the backoff is negative, a retry is allowed and the first call met a network failure |
| AuditPipeline.TotalSleep | scripts/run_pip_audit.py:195-198 | after j sleeps the total is 2·initial·(1.5^j − 1); j is at most attempts − 1 and is the number of PyPI calls after the first |
| UrlTemplates.NormalizeRendering | scripts/audit_api_contracts.py:62-68 | every rendering of a template, each parameter written either way and with any query string, normalises to its canonical form |
| UrlTemplates.CanonComplete | scripts/audit_api_contracts.py:61-65 | two templates have the same canonical form if and only if they have the same literals in the same order |
| UrlTemplates.SameEndpointExactly | scripts/audit_api_contracts.py:61-68 | the same for any two renderings |
| UrlTemplates.NormalizeIdempotent | scripts/audit_api_contracts.py:62-68 | normalising a normalised rendering changes nothing |
| UrlIdempotence.IdempotentExactly | scripts/audit_api_contracts.py:62-68 | for every string: normalising twice is normalising once if and only if, parameters replaced and query cut, none follows two dollar signs |
| UrlIdempotence.SingleDollarsIdempotent | scripts/audit_api_contracts.py:62-68 | it is idempotent on every string without two dollar signs before a brace |
| UrlIdempotence.TwoRounds | scripts/audit_api_contracts.py:62-68 | `$${a}` normalises to `${*}`, and that to `{*}` |
| UrlIdempotence.CutCommutes | scripts/audit_api_contracts.py:65-67 | after the first substitution the query may be cut before or after the second |
| ContractAudit.BuildIndex | scripts/audit_api_contracts.py:70-71 | the dictionary built path by path is the index |
| ContractAudit.Audit | scripts/audit_api_contracts.py:70-96 | the three lists as filters of the indexes |
| ContractAudit.IndexForms | scripts/audit_api_contracts.py:70-71 | the index has one path for each normal form that occurs, and no other |
| ContractAudit.IndexKeepsLast | scripts/audit_api_contracts.py:70-71 | of paths with equal normal form the last is kept |
| ContractAudit.IndexOrder | scripts/audit_api_contracts.py:70-71 | the forms come in the order of their first occurrence |
| ContractAudit.MatchingPlaces | scripts/audit_api_contracts.py:75-96 | each list keeps all that match, once each and in order |
| ContractAudit.AuditExactly | scripts/audit_api_contracts.py:75-96 | a form is broken, linked or unlinked if and only if it occurs on the side or sides that should say so; linked and unlinked partition the routes |
| ContractAudit.RenamedCallLinked | scripts/audit_api_contracts.py:61-96 | a call that differs from a route only in parameter names, notation and query is never broken and its route is linked |
| AggregateCheck.VerdictPermuted | benchmarks/provenance_schema.py:284-332 | the order of the seeds does not matter |
| AggregateCheck.DeviationsRelated | benchmarks/provenance_schema.py:310-312 | n·pop² = (n − 1)·sample², and 0 ≤ pop ≤ sample |
| AggregateCheck.DeviationsAre | benchmarks/provenance_schema.py:310-312 | the deviations are the roots of the sum of squared differences from the mean, divided by n and by n − 1 |
| AggregateCheck.AcceptedExactly | benchmarks/provenance_schema.py:298-332 | accepted if and only if the mean is within the tolerance and, with more than one seed, the deviation is within it of the one asked for, or of either; which refusal otherwise |
| AggregateCheck.BetweenRefused | benchmarks/provenance_schema.py:327-332 | a deviation between the two, farther than the tolerance from both, is refused |
| AggregateCheck.ExactAccepted | benchmarks/provenance_schema.py:301-332 | remark, read off the branches: the exact mean with the exact deviation of the kind asked for is accepted |
| AggregateCheck.AcceptedBounds | benchmarks/provenance_schema.py:303-332 | acceptance without a chosen kind forces mean ± tol and pop − tol ≤ std ≤ sample + tol |
| AggregateCheck.SingleSeedUnchecked | benchmarks/provenance_schema.py:309 | remark, read off one branch: with one seed only the mean is checked |
| AggregateCheck.AbsorbFile | benchmarks/provenance_schema.py:271-274 | the digest absorbs the whole file in order, whatever the chunk size |
| LaunderingAllocation.CountsAddUp | scripts/generate_amlnet_dataset.py:74-77 | under any rounding to nearest the three counts are non-negative and add up |
| LaunderingAllocation.EveryTypologyOccurs | scripts/generate_amlnet_dataset.py:67-77 | with the floor of five and halves to even, each count is at least one |
| LaunderingAllocation.Allotment | scripts/generate_amlnet_dataset.py:74-77 | half and three tenths of the cases, each within one half, and the rest; they add up, and from five cases on none is zero |
| LaunderingAllocation.LaunderingCount | scripts/generate_amlnet_dataset.py:67 | the nearest whole number of cases, but never fewer than five |
| Reals.Round | scripts/generate_amlnet_dataset.py:67-76 | the nearest whole number, a half going to the even one |
| LaunderingAllocation.CalendarExact | scripts/generate_amlnet_dataset.py:100-101 | day in 1..30, month in 1..12, and within 360 days together they tell the simulation day |
| LaunderingAllocation.SimDaysSpread | scripts/generate_amlnet_dataset.py:92-97 | the simulation days start at 1, never go back and end at 195 |
| LaunderingAllocation.SimDayEven | scripts/generate_amlnet_dataset.py:93 | the i-th day is the whole part of 1 + 194 i / (n − 1) |
| LaunderingAllocation.FillRows | scripts/generate_amlnet_dataset.py:89-107 | the pointer never leaves the shuffled list and ends at its length: laundering rows, in order, carry exactly its typologies |
| LaunderingAllocation.GenerateTable | scripts/generate_amlnet_dataset.py:66-107 | for every number of transactions and ratio: fails if and only if there are fewer rows than cases; otherwise each typology is emitted exactly as often as it was allotted |

## Left out

- Stream: warm-up calls, the monitor task, HTTP payloads and clocks; the deadline is an arbitrary finite number of events, latencies and waiting times are arbitrary numbers.
- Stream: cancellation of the main task from outside, and failures outside the scoring's `try` block.
- Stream: some code between two awaits is split into several actions, which allows more interleavings than asyncio does.
- Latency report: rounding is that of exact decimals, not of floats; the means, rates and throughput figures and the dictionary returned for an empty list are left out.
- Parameters: reals are exact, without float32 rounding, devices and dtypes; training and autograd.
- RobustAggregation.TrimmedMeanRobust: coordinates are treated one at a time, and finite; the test for NaN and Inf is left out.
- Krum.KrumRobust: Multi-Krum and Bulyan, which build on the same scores, are left out.
- Mutation: constructs other than comparisons, boolean operators, negation, quantifier calls and generators are opaque nodes; a comprehension with filters or several generators is one of those.
- Mutation: finding `evaluate_condition` in the module, compiling, the policy suite (an arbitrary function from trees to verdicts), description texts, and the hard-coded mutants of other modules.
- Mutation: identity comparisons evaluate to an error in the semantics; they are in no table and are never rewritten.
- Secrets: key generation, file permissions, creating directories, failing writes, the returned dictionary of paths, newline translation on other systems.
- Provisioning: user ids and time stamps (one number stands for all that is fresh), the audit chain, store locking, what a corrupted store holds in memory (each access finds it corrupted or not), policy checks on analyst credentials; the clock gives an arbitrary time at each reading.
- Provisioning: name normalisation, hashing and verification are arbitrary functions; normalising twice is the same as once, a password verifies against its own hash, and the empty one against none.
- Audit: running the command, printing and logging, parsing the command line; lower-casing of characters outside ASCII.
- URLs: finding calls in frontend files and routes in the application; the HTTP methods of a route.
- AggregateCheck.AbsorbFile: the hash function and the status strings around it; the validators of whole artifacts and of the retention ratio are left out.
- AggregateCheck.DeviationsRelated: the square root is any function that satisfies its defining equation.
- LaunderingAllocation.GenerateTable: random draws are inputs; amounts, accounts, balances and the exported files are left out; the evenly spread days are exact, without floating-point rounding.
