# A verified model of the load-test run pipeline

The repository's `pam-loadtest` tool expands a scenario into jobs, binds every job to an asset of its own,
partitions the jobs over agents, runs them with retries, tracks what became of each, and aggregates the
agents' reports under a polling and cancelling controller. This project models that pipeline, and the
smaller protocols around it, and proves what the files promise each other: above all that the accounting
produced by one of them is accepted by the validators of another, whatever failed and however the
goroutines interleaved.

`dafny verify dfyconfig.toml` checks everything.

## How it is laid out

| area | files |
|---|---|
| accounting algebra | `sums`, `scenario`, `counts`, `margins`, `ledger`, `merge` |
| tracker, evidence, aggregation | `evidence`, `tracker`, `aggregate`, `aggregate_properties`, `report_validity`, `evidence_keys`, `connection_only` |
| scheduler and its reports | `accounts`, `scheduler`, `scheduler_invariant`, `scheduler_bound`, `scheduler_reports`, `step_meanings`, `completed_runs`, `reporting`, `reported_runs` |
| planning | `config`, `expansion`, `scaling`, `scaling_properties`, `scaling_exactly`, `manifest`, `binding`, `binding_exactly`, `partition`, `partition_properties`, `partition_completeness`, `placement`, `pipeline`, `ramp` |
| registry, controller, the whole way | `registry`, `agent_execution`, `network`, `call_log`, `call_causes`, `controller`, `end_to_end` |
| wire codecs | `utf8`, `code_points`, `guacamole`, `guacamole_grammar`, `guacamole_properties`, `guacamole_stream`, `arms`, `arms_transactions`, `arms_connection` |
| inventory and logging | `inventory`, `addresses`, `plan_names`, `log_sink` |

Concurrent code is a machine of atomic steps. `Scheduling` keeps every worker goroutine, the main goroutine,
the tracker's books and cancellation in one value; `Run` folds a sequence of steps, and theorems hold for
every sequence. `Controllers` and `LogSink` are classes driven by a script, so their loops are proved for
every script: what each remote call meets, or which action comes next. The network records every call with its
fate and the registry it met; what the controller has done (whom it asked to start, whom it told to cancel, on
which grounds) is read off that record; the log sink's actions are also a
function of its state, so that its theorems range over schedules. Code that loops over local state is
a method proved against a function of its inputs, and the promises are lemmas about that function. Go's map
iteration is a loop that takes any remaining key.

The books are the central idea. A quantity (counters, evidence, or both with the scheduler's own counts) is
kept in total and per protocol, mode and dimension; every call posts an amount for a job. A ledger is the
result of posting one amount per job, and posting commutes. So the invariant of the running scheduler is one
equation, books = ledger of what each job has contributed so far, and validators, which compare margins with
sums over dimensions, are answered by properties of ledgers.

A method and the function that specifies it share the small decisions they take: which reply is grounds for cleanup,
which agent is next, how many bytes a rune has. Each of these is stated a second time without those functions, in
terms of what was given and what came out, in the lemmas whose names end in `Exactly`, and in `CallCauses`,
`StepMeanings`, `Placement`, `Expansion`, `CodePoints` and `GuacamoleGrammar`: a call by its fate and its reply, a
torn session by the observation its handle gave, a placement by the distance around the circle of agents, an
expansion by the counts of the scenario, runes by the arithmetic of section 3 of RFC 3629.

## How the source is read

- Floating-point arithmetic (latency samples, quantile ranks, scaling shares, ramp offsets) is exact.
- Times are nanoseconds; the zero time is 0. The horizon of validation is the present plus five minutes.
- Errors appear as the outcome they cause. The classifications made from an error's text (category, retryable
  timeout, transport failure) are arbitrary booleans carried by the failure.
- The random sources of the shuffle and of the ramp are arbitrary functions within their bounds.
- A report key `protocol/mode` is a pair. A report's total and three maps are grouped as one `Margins` value,
  once for counters and once for evidence.
- `Partition`, `Bind`, `Apply`, the controller and the validators split some loops of one Go function into methods of
  their own, and code repeated for protocols, modes and dimensions is one method.

## What the code does that its comments or tests do not say

- `ParseInstructions` refuses input cut directly behind a comma that separates two elements, instead of
  waiting for more: an empty length is refused before it can be called incomplete. `GuacamoleStream.Fragmentation`
  states exactly which fragmentations succeed, and `GuacamoleStream.CommaCutExample` gives bytes that fail.
- `equalMeasurements` finalizes both sides before it compares, so the quantiles a report claims play no part.
- Validation of evidence compares only the number of protocol and mode keys, not the keys. Evidence filed under
  a protocol that was not planned is accepted, whatever it says (`EvidenceKeys.MisfiledAccepted`); the keys and
  sums are right exactly if every planned protocol and mode has an entry (`EvidenceKeys.KeysExactly`), which
  strict acceptance guarantees for every agent and for the aggregate (`EvidenceKeys.StrictAggregateBalances`).
- The connection-only aggregation does not ask whether the terminal sessions succeeded: a report marked
  `completed` with a failed session passes (`ConnectionOnly.FailedRunAccepted`). What it accepts is a sound run
  exactly if every agent's totals are successful (`ConnectionOnly.ConnectionOnlyExactly`).
- `Partition` places direct jobs before browser jobs, whatever room they take from them. It succeeds exactly if
  the direct jobs are placed and the browser jobs fit into the room these leave
  (`PartitionCompleteness.PartitionedExactly`). For direct jobs with nested possible agents that is whenever an
  assignment exists, if the modes do not compete for places (`PartitionComplete`) or the inputs assure room for the
  browser jobs (`PartitionCompleteAssured`). `MixedModesIncomplete` and `NestingNeeded` show fleets where
  competing modes, or possible agents that are not nested, make it fail although an assignment exists.
- `Expand` accepts SSH jobs in browser mode, which every agent refuses; `Pipeline.ScenarioReachesAgents` shows
  that this is the only obstacle.
- With the protocol override, `Expand` refuses the result exactly when the chosen protocol had an explicit
  mode split and no jobs (`ScalingProperties.NarrowedExpandable`).
- An address plan joins a name from protocol name, node code and index with dashes. Its names are distinct exactly
  if no two uses of a protocol on a node share the text "protocol name-node code"
  (`PlanNames.NamesDistinctExactly`). Distinct node codes and distinct protocol names are not enough: protocol
  "a-b" on node "c" and protocol "a" on node "b-c" repeat a name (`PlanNames.DashRepeatsName`).
- An agent that accepted its Start while the reply was lost is not cancelled when the controller gives up. If nobody
  else starts the run, exactly such an agent, at most one, holds it without its report collected or a Cancel sent
  (`Controllers.Controller.HeldElsewhere`), and unless somebody else touches it, it goes on
  (`Controllers.Controller.OrphansUnattended`).
- A manifest is validated twice, when it is loaded and when it is bound; `Manifests.ValidatesAgain` shows that
  the second time changes nothing.

## Model

| member | source | states |
|---|---|---|
| Guacamole.ParseInstructions | pam-loadtest/internal/protocol/guacamole.go:41-86 | terminates on all bytes and computes the recursive grammar `Parse`: instructions, remainder, or refusal |
| Guacamole.RuneByteEnd | pam-loadtest/internal/protocol/guacamole.go:88-101 | end of a number of runes, each decoded by Go's UTF-8 rules, or none if the input ends first |
| CodePoints.AheadExactly | pam-loadtest/internal/protocol/guacamole.go:88-101 | a rune is decoded exactly if the encoding of some code point (up to 0x10FFFF, no surrogate) begins the bytes, and its size is the length of that encoding; whatever follows |
| CodePoints.ValidExactly | pam-loadtest/internal/protocol/guacamole.go:25-39 | valid bytes are exactly the concatenations of encoded code points, and the rune count is their number |
| CodePoints.RunesEndExactly | pam-loadtest/internal/protocol/guacamole.go:88-101 | so many runes end at an offset iff the bytes before it are the encodings of so many code points |
| GuacamoleGrammar.ElementExactly | pam-loadtest/internal/protocol/guacamole.go:44-75 | an element is read iff its text stands there: digits of a number up to the limit, a dot, the encodings of so many code points, a separator |
| GuacamoleGrammar.NoElementExactly | pam-loadtest/internal/protocol/guacamole.go:50-61 | refused iff no digit stands there, or other bytes than a dot follow the digits, or the number is over the limit |
| GuacamoleGrammar.GroupExactly | pam-loadtest/internal/protocol/guacamole.go:44-84 | an instruction is read iff elements closed by commas, and a last one closed by a semicolon, stand there |
| GuacamoleGrammar.ParseExactly | pam-loadtest/internal/protocol/guacamole.go:41-86 | the parser yields given instructions and a given remainder iff the input is the texts of these instructions, none with an empty opcode, followed by a remainder that is neither broken nor begins with an instruction |
| Guacamole.EncodeInstruction | pam-loadtest/internal/protocol/guacamole.go:25-39 | the encoding as length-prefixed elements separated by commas and closed by a semicolon |
| Guacamole.DecimalRoundTrip | pam-loadtest/internal/protocol/guacamole.go:25-58 | the decimal length written by the encoder is the number read by the parser |
| GuacamoleGrammar.DecimalExactly | pam-loadtest/internal/protocol/guacamole.go:25-39 | the length is written as the one text of its value without a zero in front |
| GuacamoleProperties.Incremental | pam-loadtest/internal/protocol/guacamole.go:41-86 | parsing a and then the remainder followed by b is parsing a followed by b, whenever a parses |
| GuacamoleProperties.ReadLoop | pam-loadtest/internal/protocol/guacamole.go:198-217 | the reader that carries the remainder over chunks, as the fold of its single step |
| GuacamoleProperties.ReaderParsesTheStream | pam-loadtest/internal/protocol/guacamole.go:198-217 | the reader fails iff some arrived beginning does not parse, and otherwise yields what parsing the whole stream yields |
| GuacamoleProperties.StaysFailed | pam-loadtest/internal/protocol/guacamole.go:211-215 | after the first refused chunk nothing more is parsed |
| GuacamoleStream.RoundTripExactly | pam-loadtest/internal/protocol/guacamole.go:25-86 | encoded instructions parse back to themselves with empty remainder iff every opcode is non-empty and every element is valid and within the length limit |
| GuacamoleStream.PrefixOfStream | pam-loadtest/internal/protocol/guacamole.go:41-86 | a beginning of an encoded stream yields its whole instructions and leaves the rest, unless it ends behind a separating comma |
| GuacamoleStream.Fragmentation | pam-loadtest/internal/protocol/guacamole.go:41-86 | chunks of an encoded stream yield exactly its instructions iff no cut lies directly behind a separating comma |
| GuacamoleStream.CommaCutRefused | pam-loadtest/internal/protocol/guacamole.go:50-57 | every instruction with an argument, cut behind its first comma, is refused, and received whole is not |
| GuacamoleStream.CommaCutExample | pam-loadtest/internal/protocol/guacamole.go:50-57 | of the bytes "1.A,1.B;" the beginning "1.A," is refused |
| Sums.SumPick | pam-loadtest/internal/runreport/report.go:481-530 | a sum over a map does not depend on which key is visited first |
| Marginals.PostBalanced | pam-loadtest/internal/runreport/report.go:202-216 | booking under a job's three keys keeps totals, protocols, modes and dimensions sums of one another |
| Ledgers.LedgerPost | pam-loadtest/internal/runreport/report.go:202-216 | booking for a job at any time equals that job having contributed more from the start |
| Ledgers.LedgerBalanced | pam-loadtest/internal/runreport/report.go:202-216 | whatever each job contributed, the four margins agree |
| Ledgers.LedgerEverywhere | pam-loadtest/internal/runreport/report.go:481-530 | a property of every job's amount that sums keep holds at every margin |
| Evidence.NearestRank | pam-loadtest/internal/runreport/report.go:614-626 | a reported quantile is a sample that at least the percentage of samples do not exceed and fewer lie below |
| Evidence.QuantilesAscend | pam-loadtest/internal/runreport/report.go:595-626 | p50 <= p95 <= p99 |
| Evidence.OrderedUnique | pam-loadtest/internal/runreport/report.go:595-612 | samples as a multiset determine the sorted samples |
| Evidence.AddedFacts | pam-loadtest/internal/runreport/report.go:537-562 | recording an observation adds its samples and traffic, whatever was recorded before |
| Evidence.MergedFacts | pam-loadtest/internal/runreport/report.go:564-577 | merging measurements adds samples and sums and keeps the later activity |
| Evidence.EqualIffSameFacts | pam-loadtest/internal/runreport/report.go:690-712 | measurements compare equal iff sample multisets and traffic agree |
| Tracking.NewTracker | pam-loadtest/internal/runreport/report.go:91-139 | refuses unbound jobs, unknown modes and repeated assets, and otherwise starts from one planned session per job with evidence entries for every key |
| ReportValidity.PlannedExactly | pam-loadtest/internal/runreport/report.go:462-473 | the plan counts one session per job, in total and under the keys some job has, and no others |
| Tracking.Tracker.Attempt | pam-loadtest/internal/runreport/report.go:141-164 | books a use, or a duplicate if the asset was used before |
| Tracking.Tracker.Increment | pam-loadtest/internal/runreport/report.go:202-216 | books an amount in the total and under the three keys, keeping the margins balanced |
| Tracking.Tracker.Started | pam-loadtest/internal/runreport/report.go:166 | books one started session at every margin |
| Tracking.Tracker.StartFailed | pam-loadtest/internal/runreport/report.go:167-170 | books one start failure and its reason |
| Tracking.Tracker.RuntimeFailed | pam-loadtest/internal/runreport/report.go:171-174 | books one runtime failure and its reason |
| Tracking.Tracker.Maintained | pam-loadtest/internal/runreport/report.go:175 | books one maintained session at every margin |
| Tracking.Tracker.ConnectRetry | pam-loadtest/internal/runreport/report.go:176-178 | books one retry at every margin |
| Tracking.Tracker.ConnectRetrySucceeded | pam-loadtest/internal/runreport/report.go:179-181 | books one successful retry at every margin |
| Tracking.Tracker.ConnectRetryExhausted | pam-loadtest/internal/runreport/report.go:182-184 | books one exhausted retry at every margin |
| Tracking.Tracker.Record | pam-loadtest/internal/runreport/report.go:186-200 | adds the observation's facts at all four margins of the evidence |
| Tracking.Tracker.Snapshot | pam-loadtest/internal/runreport/report.go:218-250 | derives unused and maintained, sorts samples and takes quantiles, without changing what the evidence stands for |
| Aggregation.CheckMargin | pam-loadtest/internal/runreport/report.go:481-530 | in any order of keys: accepted iff keys are those planned, planned counts agree, all counters are valid and they add up to the total |
| Aggregation.ValidateEvidence | pam-loadtest/internal/runreport/report.go:628-671 | in any order of dimensions: accepted iff each dimension's evidence is valid, and total, protocols and modes are the merged dimensions |
| Aggregation.ValidateReportDimensions | pam-loadtest/internal/runreport/report.go:457-535 | accepted iff the agent's assets are new and distinct and counters and evidence match its jobs |
| Aggregation.Collect | pam-loadtest/internal/runreport/report.go:273-317 | in any order of agents: succeeds iff every agent's report is acceptable and no asset is shared, and yields the sums of the reports |
| AggregationProperties.AggregateTerminalForBuild | pam-loadtest/internal/runreport/report.go:263-318 | succeeds iff the status is failed or cancelled and the terminal reports are collectable |
| AggregationProperties.AggregateForBuild | pam-loadtest/internal/runreport/report.go:320-385 | succeeds iff the completed reports are collectable and report no duplicate |
| AggregationProperties.CollectedTotals | pam-loadtest/internal/runreport/report.go:375-380 | the global check on planned sessions cannot fail; only duplicates can |
| AggregationProperties.CollectedUnique | pam-loadtest/internal/runreport/report.go:341-385 | the aggregate of given reports is one report: the order of agents, protocols, modes and dimensions plays no part |
| AggregationProperties.SampleOrderIrrelevant | pam-loadtest/internal/runreport/report.go:564-612 | reports with samples in another order are accepted too and give the same counters, evidence and reasons |
| AggregationProperties.CollectedQuantiles | pam-loadtest/internal/runreport/report.go:587-626 | at every margin of an aggregate the quantiles are nearest-rank quantiles of the merged samples |
| AggregationProperties.AcceptedRunIsSound | pam-loadtest/internal/runreport/report.go:331-385 | acceptance means: in every margin of every agent each planned session was used once, started and maintained, with connect sample and activity, direct ones in both directions, no asset shared |
| ReportValidity.MeasurementsExactly | pam-loadtest/internal/runreport/report.go:673-688 | measurements are valid iff samples are positive, quantiles ascend, no number is negative and no activity lies beyond the horizon |
| AggregationProperties.SumDominates | pam-loadtest/internal/runreport/report.go:474-530 | each entry's failures, duplicates and unused sessions are bounded by those of the total |
| EvidenceKeys.KeysExactly | pam-loadtest/internal/runreport/report.go:628-671 | for accepted evidence: right keys, an entry for every planned protocol and mode, and margins that are sums of one another are the same thing |
| EvidenceKeys.EvidenceIsNamed | pam-loadtest/internal/runreport/report.go:650-668 | a planned protocol or mode without an entry has no evidence in any of its dimensions |
| EvidenceKeys.MisfiledAccepted | pam-loadtest/internal/runreport/report.go:628-671 | evidence under an unplanned protocol is accepted with any content, and then does not add up |
| EvidenceKeys.StrictEvidenceBalances | pam-loadtest/internal/runreport/report.go:628-671 | strictly accepted evidence has the planned keys and balanced margins |
| EvidenceKeys.StrictAggregateBalances | pam-loadtest/internal/runreport/report.go:331-385 | the evidence of every agent and of the aggregate is balanced under strict acceptance |
| ConnectionOnly.ConnectionOnlyExactly | pam-loadtest/internal/runreport/report.go:324-385 | a connection-only acceptance means fully maintained counters in every margin of every agent iff every agent's totals are successful |
| ConnectionOnly.FailedRunAccepted | pam-loadtest/internal/runreport/report.go:324-385 | a report with a failed start that the connection-only aggregation accepts and the strict one refuses |
| SchedulingInvariant.LocalKeeps | pam-loadtest/internal/scheduler/scheduler.go:91-145 | every outcome of a runner call, of the select and of the retry wait keeps a worker's account equal to what its phase demands |
| SchedulingInvariant.TearKeeps | pam-loadtest/internal/scheduler/scheduler.go:175-203 | teardown gives a connected session its one outcome, transport failures reclassified; what each observation of a handle means is `StepMeanings.TearMoves` |
| SchedulingInvariant.StepInv | pam-loadtest/internal/scheduler/scheduler.go:65-210 | every step of every goroutine keeps all invariants |
| SchedulingInvariant.ReachableInv | pam-loadtest/internal/scheduler/scheduler.go:65-210 | every reachable world: books are the ledger of the jobs' accounts, only last handles are finalized, calls carry the unchanged job |
| SchedulingReports.ExactlyOneOutcome | pam-loadtest/internal/scheduler/scheduler.go:91-208 | in every complete run each launched job is either started or failed to start, exactly once, after at most 1 + MaxRetries calls with its binding unchanged; the others have nothing booked |
| SchedulingReports.NeverStuck | pam-loadtest/internal/scheduler/scheduler.go:91-210 | once cancelled, a run that has not returned always has a next step |
| SchedulingBound.StepsBounded | pam-loadtest/internal/scheduler/scheduler.go:91-210 | a run takes at most jobs x (12 + 5 MaxRetries) + 4 steps besides cancellation, under every schedule |
| SchedulingReports.CountsOfAccounts | pam-loadtest/internal/runreport/report.go:457-530 | counters of any valid accounts pass validation in total, protocols, modes and dimensions |
| SchedulingReports.ReportOfRunValidates | pam-loadtest/internal/scheduler/scheduler.go:91-208 | the report of any run that is over passes terminal validation; the scheduler's start failures are the report's, its runtime failures at most the report's, duplicates none |
| StepMeanings.ObservedIsSeen | pam-loadtest/internal/runreport/report.go:537-562 | what an observation adds to the evidence, measure by measure: latencies in milliseconds, bytes sent and received, events, activity |
| StepMeanings.VerdictIsMeant | pam-loadtest/internal/app/runtime.go:545-558 | the verdict on a session torn down, told from the observation its handle gave: maintained iff it was alive and was cancelled, failed by transport, or completed within five seconds before the close; a failure that is not of transport stays one |
| StepMeanings.LocalMoves | pam-loadtest/internal/scheduler/scheduler.go:96-143 | what each outcome of a worker changes: a start failure with its note, an announced, successful or exhausted retry, or nothing, by job, observation and retry number |
| StepMeanings.TearMoves | pam-loadtest/internal/scheduler/scheduler.go:175-203 | each session torn down adds one started and one maintained or failed session, what its handle observed, and one runtime note iff it failed and not by transport |
| StepMeanings.WaitsExactly | pam-loadtest/internal/scheduler/scheduler.go:238-254 | after the wait a worker may retry unless the run was cancelled and no positive backoff is given for that retry, and give up iff it was cancelled |
| StepMeanings.AnyTeardown | pam-loadtest/internal/scheduler/scheduler.go:145-203 | the main goroutine can launch while jobs are left, stop early iff cancelled, tear down once all workers are done, close the next handle at any time and take any observation from it; `StepMeanings.AnyOutcome` says the same of a worker and its runner |
| StepMeanings.DueIsBooked | pam-loadtest/internal/scheduler/scheduler.go:91-208 | after any steps, what is due of every job is its plan and the meanings of the steps taken for it |
| StepMeanings.BooksAreMeanings | pam-loadtest/internal/scheduler/scheduler.go:91-208 | the books of every run that is over are the plan and the meanings of its steps, in their order |
| StepMeanings.ReportCountsTears | pam-loadtest/internal/scheduler/scheduler.go:174-208 | the report counts as started, maintained and failed exactly the torn sessions of which their handles observed that; the failures that are not of transport are the scheduler's, and no more than the report's |
| CompletedRuns.FinishRun | pam-loadtest/internal/app/runtime.go:323-355 | the status is completed iff there was no error and the totals show every planned session used, started and maintained |
| CompletedRuns.CompletedReportValidates | pam-loadtest/internal/app/runtime.go:349-355 | totals without failure imply evidence of activity in every dimension: such a report passes the strict validation |
| CompletedRuns.FleetAccepted | pam-loadtest/internal/runreport/report.go:263-385 | reports of runs over disjoint assets are aggregated whatever failed, and strictly if all completed |
| Reporting.ReportingHandle.Finalize | pam-loadtest/internal/app/runtime.go:537-560 | the first call books the observation, one verdict as the machine does and the reason of a failure; later calls nothing |
| Reporting.ReportingRunner.Run | pam-loadtest/internal/app/runtime.go:487-513 | books one attempt per asset however often it is called, and a start failure with its reason if the inner runner refuses |
| ReportedRuns.TakeLocal | pam-loadtest/internal/scheduler/scheduler.go:96-145 | the calls the scheduler makes of the runner and the handle in each of a worker's steps book what the machine promises there |
| ReportedRuns.Follow | pam-loadtest/internal/app/runtime.go:480-560 | driven through the reporting runner and its handles along any run, the tracker shows for each job, its pending effects included, the amount its phase demands, and at the end exactly the machine's books |
| Configuration.Expand | pam-loadtest/internal/config/config.go:178-229 | succeeds iff counts are non-negative, of known protocols and add up, and splits add up |
| Configuration.ExpansionIsExact | pam-loadtest/internal/config/config.go:202-229 | exactly total jobs numbered 1..n, unbound, as many of each protocol and mode as requested; `Expansion.ExpandedExactly` tells from the scenario how many that is |
| Expansion.AcceptedExactly | pam-loadtest/internal/config/config.go:178-200 | a scenario is accepted iff its counts are those of the five protocols, none negative, adding up to a positive total, and the split of each protocol with jobs has no negative part and adds up to its count |
| Expansion.ExpandedExactly | pam-loadtest/internal/config/config.go:202-229 | jobs in the order SSH, RDP, VNC, Web, MySQL, browser before direct; of a protocol without a split all are direct for SSH and MySQL and all browser otherwise; of one with a split as many of each mode as it says |
| Scaling.ScaleModeCounts | pam-loadtest/internal/app/runtime.go:254-271 | the loop that raises the part with the larger remainder, browser on a tie |
| Scaling.ModesScale | pam-loadtest/internal/app/runtime.go:254-271 | a split that adds up is scaled to one that adds up, each part to floor or ceiling, zero to zero |
| ScalingExactly.ModesExactly | pam-loadtest/internal/app/runtime.go:254-271 | each part of a split is its exact share rounded down, and the place left over, if any, goes to the larger remainder, to browser on a tie |
| Scaling.ApplyRuntimeOverrides | pam-loadtest/internal/app/runtime.go:179-252 | the overridden scenario or a refusal, as a function of scenario and overrides |
| ScalingProperties.PositiveFirst | pam-loadtest/internal/app/runtime.go:232-240 | the jobs left over after rounding down are fewer than the protocols with a fraction, which come first |
| ScalingProperties.ProtocolsScale | pam-loadtest/internal/app/runtime.go:213-244 | scaled counts add up to the new total, each is floor or ceiling of its exact share, none becomes non-zero from zero |
| ScalingExactly.SharesExactly | pam-loadtest/internal/app/runtime.go:225-240 | a protocol gets its share rounded down, and one more iff fewer protocols come ahead of it, by larger remainder or on a tie by order, than jobs are left over |
| ScalingExactly.OverriddenExactly | pam-loadtest/internal/app/runtime.go:179-252 | which overrides are refused, and the total, counts and splits of the scenario that results from the others |
| ScalingProperties.ScaledExpandable | pam-loadtest/internal/app/runtime.go:210-252 | an accepted scenario is accepted after scaling, mode splits rounded to floor or ceiling |
| ScalingProperties.NarrowedExpandable | pam-loadtest/internal/app/runtime.go:188-209 | with the protocol override the result is accepted iff not (explicit split and no jobs) |
| ScalingProperties.OverrideExpandsExactly | pam-loadtest/internal/config/config.go:178-229 | after a total override the scenario expands into exactly that many jobs |
| Manifests.ValidateManifest | pam-loadtest/internal/inventory/manifest.go:51-102 | normalises in place; accepted iff every normalised record is complete, of known protocol and unique in name, address, asset and account |
| Manifests.TrimExactly | pam-loadtest/internal/inventory/manifest.go:67-71 | a trimmed text is the text without blanks at its ends, and begins and ends with none |
| Manifests.ProtocolTextExactly | pam-loadtest/internal/inventory/manifest.go:71-74 | the protocol text is the trimmed one with its letters A to Z in lower case, database becoming mysql |
| Manifests.AcceptedExactly | pam-loadtest/internal/inventory/manifest.go:55-99 | accepted iff of version 1, not empty, every record complete and of the five protocols, and no name, address, asset or account repeated, all once trimmed |
| Manifests.ValidatesAgain | pam-loadtest/internal/inventory/manifest.go:61-69 | an accepted manifest is accepted again and not changed further |
| Binding.Shuffle | pam-loadtest/internal/allocation/allocation.go:59-63 | the in-place shuffle performs the drawn exchanges from the top down |
| Binding.Bind | pam-loadtest/internal/allocation/allocation.go:18-76 | succeeds iff manifest and jobs are valid and every pool suffices; the k-th job of a protocol gets the k-th asset of its shuffled pool |
| BindingExactly.BoundExactly | pam-loadtest/internal/allocation/allocation.go:52-75 | a job gets, of its protocol's assets in the order of names exchanged from the last place down as drawn, the one at the number of earlier jobs of that protocol |
| BindingExactly.BindableExactly | pam-loadtest/internal/allocation/allocation.go:18-51 | a binding is found iff the manifest is valid, jobs are unbound, of known protocols and of different positive numbers, and each protocol has as many assets as jobs |
| Binding.FinalPoolKeeps | pam-loadtest/internal/allocation/allocation.go:52-65 | whatever is drawn, the shuffled pool is a permutation of the protocol's assets |
| Binding.BindingMatches | pam-loadtest/internal/allocation/allocation.go:66-75 | number, protocol and mode stay, and the asset is a manifest asset of the job's protocol |
| Binding.BindingInjective | pam-loadtest/internal/allocation/allocation.go:66-75 | no asset and no account is bound twice |
| Binding.BindingIgnoresOrder | pam-loadtest/internal/allocation/allocation.go:53-58 | the order in which the manifest lists its assets plays no part |
| Partitioning.Partition | pam-loadtest/internal/distributed/partition.go:18-129 | succeeds iff the greedy assignment does, with its slices under the agents' IDs; `Placement.PartitionExactly` tells which assignment that is |
| Placement.GreedyPlaces | pam-loadtest/internal/distributed/partition.go:78-112 | each job goes to the agent with room at the smallest cyclic distance from the cursor, which then stands one past it; and the assignment of a mode fails iff no such placement exists |
| Placement.ScarcestIsSort | pam-loadtest/internal/distributed/partition.go:70-72 | direct jobs are ordered by the number of agents that help with their protocol, jobs of the same number in the order given |
| Placement.PartitionExactly | pam-loadtest/internal/distributed/partition.go:18-129 | slices are the partition iff the inputs are valid and the slices are those of placing first the direct jobs, scarcest first, then the browser jobs, both from the first agent on, each at the next agent in turn with room |
| Partitioning.ScarceFirstStable | pam-loadtest/internal/distributed/partition.go:70-72 | sorting by scarcity keeps the order of jobs of one protocol |
| Partitioning.CountsSupporters | pam-loadtest/internal/distributed/partition.go:131-139 | the count is the size of the set of agents that could run the protocol directly |
| PartitionProperties.PartitionDistributes | pam-loadtest/internal/distributed/partition.go:74-129 | every job in exactly one slice, within total, direct and browser capacity, direct jobs only where supported |
| PartitionProperties.SlicesDisjoint | pam-loadtest/internal/distributed/partition.go:43-63 | no number, asset or account occurs twice within or across slices |
| PartitionCompleteness.StuckViolates | pam-loadtest/internal/distributed/partition.go:80-111 | a direct job that finds no room exhibits more jobs confined to its possible agents than those can take |
| PartitionCompleteness.HallRefutes | pam-loadtest/internal/distributed/partition.go:64-111 | such a violation, among jobs of either mode, rules out every assignment |
| PartitionCompleteness.DirectComplete | pam-loadtest/internal/distributed/partition.go:70-119 | direct jobs with nested possible agents are not placed only if no assignment exists |
| PartitionCompleteness.BrowserExact | pam-loadtest/internal/distributed/partition.go:80-122 | browser jobs are placed iff the agents have room for all of them, whatever is placed already |
| PartitionCompleteness.PartitionedExactly | pam-loadtest/internal/distributed/partition.go:64-129 | a partition is found iff capacities suffice in total, the direct jobs are placed, and the browser jobs are at most the sum of min(browser capacity, capacity left) |
| PartitionCompleteness.PartitionComplete | pam-loadtest/internal/distributed/partition.go:64-129 | for bound jobs of both modes that do not compete, direct ones with nested possible agents: a partition is found iff one exists |
| PartitionCompleteness.PartitionCompleteAssured | pam-loadtest/internal/distributed/partition.go:64-129 | the same for competing modes, if browser jobs fit into what direct jobs cannot take, or both together fit into all room for browser jobs |
| PartitionCompleteness.ApartIsAssured | pam-loadtest/internal/distributed/partition.go:64-129 | modes that do not compete leave that room in every feasible fleet, so the condition is the wider one |
| PartitionCompleteness.NestingNeeded | pam-loadtest/internal/distributed/partition.go:70-119 | possible agents that overlap without nesting: three direct jobs for which assignment fails although a partition exists |
| PartitionCompleteness.MixedModesIncomplete | pam-loadtest/internal/distributed/partition.go:117-122 | competing modes: a direct and a browser job for which assignment fails although a partition exists |
| Pipeline.ExpandedBindable | pam-loadtest/internal/config/config.go:202-229 | expanded jobs pass the checks of binding |
| Pipeline.BoundPartitionable | pam-loadtest/internal/allocation/allocation.go:66-75 | bound jobs pass the checks of partition |
| Pipeline.PartitionAccepted | pam-loadtest/internal/distributed/registry.go:154-208 | agents accept every slice iff no job is SSH in a browser |
| Pipeline.AssignmentsDisjoint | pam-loadtest/internal/runreport/report.go:462-468 | the assignments share no asset, as aggregation demands |
| Pipeline.ScenarioReachesAgents | pam-loadtest/internal/app/distributed.go:140-191 | expansion, binding and partition of an accepted scenario give slices that all agents accept iff no SSH browser session was asked for |
| Ramp.Plan | pam-loadtest/internal/scheduler/scheduler.go:21-39 | the plan as a stable sort of clamped, jittered offsets |
| Ramp.OffsetInSlot | pam-loadtest/internal/scheduler/scheduler.go:25-35 | each offset lies in its own slot and in the ramp; clamping changes nothing |
| Ramp.PlanKeepsOrder | pam-loadtest/internal/scheduler/scheduler.go:21-39 | whatever is drawn, jobs keep their order, with non-decreasing offsets inside the ramp |
| Ramp.MomentExactly | pam-loadtest/internal/scheduler/scheduler.go:24-27 | the moment of a job is the middle of its slot, moved by twice the draw less one times the jitter fraction of a step |
| Ramp.OffsetExactly | pam-loadtest/internal/scheduler/scheduler.go:27-33 | cut to a whole nanosecond, and to the ramp |
| Ramp.PlanSorted | pam-loadtest/internal/scheduler/scheduler.go:37 | the plan is the jobs with rising times, those of one time in their order |
| Registries.ValidateRunRequest | pam-loadtest/internal/distributed/registry.go:128-208 | accepted iff durations, retries, intervals and jobs satisfy every check |
| Registries.AcceptedExactly | pam-loadtest/internal/distributed/registry.go:128-208 | the accepted requests, check by check: durations, 0 to 3 retries, intervals of 1 to 60 whole seconds, bound jobs of different numbers, assets and accounts, in modes and numbers the agent can run |
| Registries.Registry.Start | pam-loadtest/internal/distributed/registry.go:48-92 | a valid request for a new run on an idle agent becomes the active running record; all else changes nothing |
| Registries.Registry.Status | pam-loadtest/internal/distributed/registry.go:94-107 | the record as it stands |
| Registries.Registry.Cancel | pam-loadtest/internal/distributed/registry.go:109-126 | marks a running record, and answers cancelled for every record so marked |
| Registries.Registry.Finish | pam-loadtest/internal/distributed/registry.go:67-90 | stores the report under the run's identity and final status and frees the agent |
| Registries.EveryRunInv | pam-loadtest/internal/distributed/registry.go:48-126 | after any events: one executor at most and only the active run running, reports exactly on terminal runs with their ID and status, terminal runs unchanged |
| Registries.CancelledEndsCancelled | pam-loadtest/internal/distributed/registry.go:109-126 | a run whose Cancel was answered cancelled never becomes completed or failed |
| Registries.StartWaitsForExecutor | pam-loadtest/internal/distributed/registry.go:48-61 | a Start succeeds only after every earlier executor has finished |
| Controllers.Controller.CancelStarted | pam-loadtest/internal/app/distributed.go:195-203 | the network records one Cancel to each started agent, in order, whatever becomes of each; without error iff all are confirmed |
| Controllers.Controller.StartAgent | pam-loadtest/internal/app/distributed.go:218-238 | the next planned Start is recorded, if the agent has jobs, and acknowledged; or a call went wrong, every agent that answered was told to cancel, and an agent that accepted without an answer is not among them |
| Controllers.WantedExactly | pam-loadtest/internal/app/distributed.go:210-238 | an agent of the plan is asked to start iff some jobs are assigned to it, with these, and after none but agents before it |
| Controllers.Controller.SetTerminalStatus | pam-loadtest/internal/app/distributed.go:252-256 | the status stays the verdict on all grounds so far: failed if any of them is |
| Controllers.Controller.BeginCleanup | pam-loadtest/internal/app/distributed.go:257-270 | however many grounds the record gives, every started agent is told to cancel once; a failed verdict is never replaced by cancelled |
| Controllers.Controller.Poll | pam-loadtest/internal/app/distributed.go:272-299 | one status call: a terminal reply with its report is kept; every reply but completed with its report, pending or running, and every call without a reply, is grounds for cleanup, with its status or as failed |
| Controllers.Controller.PollAgents | pam-loadtest/internal/app/distributed.go:271-315 | before every wait each agent without a report is asked; ends with all reports, or with a wait that was done when there were grounds already, unless the script ends first; the grounds are those of the replies and of the first wait that was done |
| Controllers.Controller.RunController | pam-loadtest/internal/app/distributed.go:192-336 | the network's record: Starts as planned, all of them past the start, each agent once and for its own jobs, with the delay kept between any two; one Cancel to every started agent iff the start failed or there were grounds, else none; no grounds iff every status call was answered as going on or as completed with its report and no wait was done, and a failed verdict iff some call went unanswered, failed or said what no status is; succeeded only without grounds; the end follows from the grounds and the reports; reports are those the agents hold |
| Controllers.Controller.StartedOver | pam-loadtest/internal/app/distributed.go:192-336 | at every return the run of each started agent is over or ending, unless the request of a Cancel to it was lost |
| Controllers.Controller.HeldElsewhere | pam-loadtest/internal/app/distributed.go:227-233 | apart from agents whose report is there or that were told to cancel, exactly those hold the run that accepted a Start whose reply was lost |
| Controllers.Controller.OrphansUnattended | pam-loadtest/internal/app/distributed.go:227-233 | such a run goes on, uncancelled, unless somebody else touches it |
| CallLogs.ToldOver | pam-loadtest/internal/distributed/registry.go:109-126 | a run that a Cancel was aimed at is over or ending, unless the request was lost |
| CallLogs.QuietReplies | pam-loadtest/internal/app/distributed.go:272-299 | without grounds every report was given as completed |
| CallCauses.GroundsExactly | pam-loadtest/internal/app/distributed.go:272-299 | call by call, without the controller's classification: a status call without a reply, terminal without its report, of unknown status, or failed is grounds as failed, a cancelled reply with its report as cancelled; pending, running and completed with its report are none |
| CallCauses.VerdictExactly | pam-loadtest/internal/app/distributed.go:252-256 | the verdict is failed iff some call or wait means failed, cancelled iff one means cancelled and none failed |
| CallCauses.CollectedExactly | pam-loadtest/internal/app/distributed.go:289-298 | the reports kept are those of the agents that gave one with a terminal status |
| CallCauses.AcknowledgedExactly | pam-loadtest/internal/app/distributed.go:227-238 | all Starts are acknowledged iff each was begun by its agent and answered, or answered with this run and the number of its jobs |
| CallLogs.CollectedHeld | pam-loadtest/internal/app/distributed.go:276-296 | a report that was given is what the agent still holds |
| EndToEnd.RunConfigJobs | pam-loadtest/internal/app/runtime.go:323-355 | the report of an agent's run, completed iff no error and terminal evidence in order |
| AgentExecution.RebuildScenario | pam-loadtest/internal/app/distributed.go:70-85 | the scenario counted from the jobs, as a function of them |
| AgentExecution.AcceptedRequestRuns | pam-loadtest/internal/app/distributed.go:64-92 | for every accepted request the rebuilt scenario expands, into as many jobs of each kind as requested, and the tracker accepts the jobs |
| EndToEnd.ExecuteRequest | pam-loadtest/internal/app/distributed.go:63-93 | the executor of an accepted request ends with a report of its run, unless the build has no version |
| EndToEnd.StoredReport | pam-loadtest/internal/distributed/registry.go:67-90 | the registry's copy under its final status is still a report of that run |
| EndToEnd.PartitionedRunsAggregate | pam-loadtest/internal/app/distributed.go:316-335 | reports of runs over slices of a partition are aggregated whatever happened, strictly if all completed |
| EndToEnd.RunsAreFine | pam-loadtest/internal/distributed/registry.go:67-90 | an executor that ends with a report of its run leaves a good report, whatever status the registry gives it |
| EndToEnd.RunFleet | pam-loadtest/internal/app/distributed.go:192-336 | the controller over agents whose executors report their runs never fails for lack of aggregation, whatever fails, is lost or cancelled |
| Inventory.Reconcile | pam-loadtest/internal/inventory/apply.go:72-100 | succeeds iff no desired asset conflicts; returns the missing ones in order and the number that match, up to the first conflict if there is one |
| Inventory.FindExactly | pam-loadtest/internal/inventory/apply.go:72-100 | an asset is there iff exactly one remote record has its name and that one is the wanted record, with an ID, one account and that the default; it is missing iff no remote record has its name or its address |
| Inventory.Apply | pam-loadtest/internal/inventory/apply.go:27-70 | for every inventory: the counts are those of the inventory found, the imports are the missing assets in order in batches of the allowed size, and each end has its cause, three of them exactly one failed call; for distinct names: imports only absent names; what is counted is there; done means all present once and matching; a faithful compatible inventory stops a run only by a failure |
| Inventory.ApplyAgain | pam-loadtest/internal/inventory/apply.go:27-70 | any number of interrupted runs together, for distinct names, only add absent desired assets, each once; with more runs than failures, a faithful compatible inventory ends complete |
| Inventory.FaithfulCompatible | pam-loadtest/internal/inventory/apply.go:79-98 | a partial import of matching records leaves the rest importable |
| Addresses.Plan | pam-loadtest/internal/inventory/plan.go:9-58 | succeeds iff names are given and every node has room; assets numbered 1..n in the order of nodes, protocols and indices |
| Addresses.PlannableExactly | pam-loadtest/internal/inventory/plan.go:9-33 | a plan is found iff prefix and marker are given, every protocol has a name, a kind, a port and a count, and every node two addresses more than assets |
| Addresses.NetworkExactly | pam-loadtest/internal/inventory/plan.go:22-34 | a network begins at a multiple of its size, contains its address and ends at the broadcast address |
| Addresses.NodeAddresses | pam-loadtest/internal/inventory/plan.go:34-54 | a node's assets are at network+1, network+2, ... and never at the network or broadcast address |
| Addresses.AddressesDistinct | pam-loadtest/internal/inventory/plan.go:19-56 | over disjoint networks no address is planned twice |
| PlanNames.NamesSplit | pam-loadtest/internal/inventory/plan.go:42 | two joined names are equal iff the texts before the index are and the indices are |
| PlanNames.NamesDistinctExactly | pam-loadtest/internal/inventory/plan.go:35-52 | the names of a plan are distinct iff no two uses of a protocol on a node share the text protocol name-node code |
| PlanNames.PlanImportable | pam-loadtest/internal/inventory/apply.go:27-70 | the same condition decides whether a plan's assets have the distinct names that import relies on |
| PlanNames.SharedPartsRepeat | pam-loadtest/internal/inventory/plan.go:35-52 | two specifications of one name used on a node, or one specification used on two nodes of one code, repeat a name |
| PlanNames.DashRepeatsName | pam-loadtest/internal/inventory/plan.go:42 | a specification with distinct codes, protocol names and networks of which every plan repeats a name |
| LogSink.AsyncLogSink.constructor | SPA-test-server/main.go:1219-1230 | an open sink with a queue of at least one place |
| LogSink.AsyncLogSink.OfferLine | SPA-test-server/main.go:1239-1243 | enqueues or finds the queue full; the queue is open at that moment |
| LogSink.AsyncLogSink.WriteDroppedSummary | SPA-test-server/main.go:1280-1286 | takes the drop counter and reports it unless it is zero |
| LogSink.AsyncLogSink.Execute | SPA-test-server/main.go:1232-1278 | the sink after any schedule is the function of that schedule, complete once Close has returned |
| LogSink.ScheduleSound | SPA-test-server/main.go:1232-1278 | under every schedule lines leave in the order enqueued and successful Writes are lines plus drops counted or reported |
| LogSink.ClosedSinkIsComplete | SPA-test-server/main.go:1247-1278 | once Close has returned the file holds the enqueued lines in order, and successful Writes are lines on file plus drops its summaries report |
| LogSink.NoSendOnClosedQueue | SPA-test-server/main.go:1232-1258 | under every schedule no Write is about to send when the queue is closed |
| LogSink.NeverBlocked | SPA-test-server/main.go:1232-1278 | under every schedule a Write can begin unless Close holds its lock, and goes on to its end; Close gets its lock once no Write is under way, and then it or the goroutine can go on |
| LogSink.AdmittedExactly | SPA-test-server/main.go:1232-1245 | under every schedule the lines enqueued are those offered while the queue had room, as their Writes were given them, and the drops are those offered to a full queue |
| Arms.EncodeFrame | arms-load-generator/protocol.go:34-48 | the in-place layout of a frame; refused iff the request ID is not 36 bytes |
| Arms.FrameBytes | arms-load-generator/protocol.go:34-48 | each byte of a frame: length, type, kind, number, ID and body at their offsets, numbers with the high byte first |
| Arms.FrameDecodes | arms-load-generator/protocol.go:34-48 | reading by the length field recovers every field and leaves what follows |
| Arms.StreamDecodes | arms-load-generator/protocol.go:34-55 | a stream of frames decodes to those frames |
| ArmsTransactions.BuildResponseContent | arms-load-generator/protocol.go:139-157 | the body itself, or the seed repeated and cut to the requested size |
| ArmsTransactions.ChunksMakeUp | arms-load-generator/protocol.go:123-136 | chunks have 1 to chunk-size bytes, number the ceiling of length by size, and join to the body |
| ArmsTransactions.EncodeResponseFrames | arms-load-generator/protocol.go:116-137 | one frame per chunk with consecutive numbers, and the number after them |
| ArmsTransactions.TransactionFrames | arms-load-generator/protocol.go:84-113 | metadata, request, chunks and completion under one request ID with consecutive numbers modulo 2^64 |
| ArmsTransactions.TransactionExactly | arms-load-generator/protocol.go:84-137 | every frame of a transaction with its two codes and number; all chunks but the last have the configured size, and they join to the response |
| ArmsTransactions.BuildTransaction | arms-load-generator/protocol.go:57-114 | the bytes are the stream of the transaction's frames; next = sequence + frame count |
| ArmsConnections.EncodeHeartbeat | arms-load-generator/protocol.go:50-55 | a heartbeat is the encoding of an empty frame without type, number or ID |
| ArmsConnections.WritePayload | arms-load-generator/generator.go:244-260 | writes the payload in order, or, exactly when the deadline could not be set or a Write failed or took nothing, a beginning of it |
| ArmsConnections.SendTransaction | arms-load-generator/generator.go:229-242 | writes the frames of this transaction and advances the sequence by them, whether or not the write succeeds; nothing without a request ID |
| ArmsConnections.ServeConnection | arms-load-generator/generator.go:176-227 | every turn up to a stop is sent in full, or up to the turn a failing Write or missing ID interrupts, of which a beginning is sent |
| ArmsConnections.SentSound | arms-load-generator/generator.go:176-242 | the frames of all turns decode back, and the numbered ones carry 1, 2, 3, ... without gap across transactions, modulo 2^64 |

## Left out

- Network, processes and files: gRPC, HTTP, WebSocket, TLS, the browser worker, configuration and manifest files, environment variables, metrics and log texts; only their effects appear, as steps, scripts and answers.
- Classification of error texts into categories and retryable errors: arbitrary booleans of a failure.
- Real time: deadlines, tickers and ramp delays are steps that may happen; nothing is claimed about when.
- IEEE rounding and machine-integer overflow, except the wrap of ARMS sequence numbers.
- SchedulingReports.ReportOfRunValidates: the first start and runtime errors, which the scheduler keeps for its message, are not in the model.
- Tracking.Tracker.Attempt: the tracker's map of used assets per protocol, which is written and never read.
- Manifests.ValidateManifest: white space and letter case are those of Latin-1 and ASCII, not of all of Unicode; the manifest builder and its files are not part of this model.
- Partitioning.Partition: how evenly the rotating cursor spreads the jobs; what is promised is which agent each job gets.
- PartitionCompleteness.PartitionComplete: for possible agents that are not nested, or modes that compete without assured room, only the exact condition that refers to where the direct jobs were placed.
- Scaling.ApplyRuntimeOverrides: parsing of the environment and the overrides of ramp and hold.
- Inventory.Apply: no other client changes the inventory during the runs.
- Addresses.Plan: the texts of networks and addresses and the parsing of prefixes.
- ReportedRuns.Follow: the reporting runner's call is one step before the inner call and one after it, and Finalize is one step; that their effects may be performed later is what the machine's pending effects say.
- Binding.Bind: the summary of planned and requested counts.
- Registries.Registry.Status: the error text of a failed run.
- Registries.Registry.Start: the executor itself, which appears as the event that it has finished, and the wire form of jobs.
- Controllers.Controller.RunController: login, dialing, capability checks and the building of the request; the reason texts of errors.
- LogSink.ClosedSinkIsComplete: the writer does not fail, and when a full buffer is written early only the order of its content matters.
- ArmsTransactions.BuildTransaction: the JSON and HTTP texts and the generation of the request ID are inputs.
- Browser pools, target tables, LDAP and Redis feeds, permit scheduling and statistics of the ARMS generator: simple members that would add no harder property.
