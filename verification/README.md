# ZeroShield: a verified model

A Dafny model of the parts of ZeroShield whose correctness is spread over several functions, with
proofs of what they promise. `dafny verify dfyconfig.toml` checks the whole project.

| files | what they model |
|---|---|
| `CveMerge`, `CveHistory`, `CveClosedForm`, `CveLog`, `CveSync`, `SyncMeaning`, `CveIdempotence` | merging contributions of several sources into one CVE record, the field-level change log and what its lines say, rebuilding past states from it, a connector sync and its report, and running it again |
| `JsonValue`, `Strategies`, `StrategyFields`, `Metrics`, `MetricsMeaning`, `Domination`, `Verdict` | the four processing strategies on arbitrary JSON input and what they ask of each field, the runner, the metrics and the verdict |
| `Datasets`, `VpnGenerator`, `VpnCases`, `VpnLabels`, `TelecomGenerator`, `TelecomCases`, `TelecomLabels` | the two dataset generators, what their datasets consist of, whether their labels are right, and the verdict they lead to |
| `RunJobs`, `EvidenceSafety`, `EvidenceContent` | submitting, queueing and processing a run job, with crashes, exceptions and redelivery; which bytes end up where |
| `Studio`, `StudioSafety`, `StudioRoles`, `StudioPublishing`, `StudioExamples` | the Experiment Studio workflow and its roles, the safety policy, what is published and what the runner then finds |
| `Regression`, `Assurance`, `Revalidation`, `AssuranceRuns`, `RegressionMeaning`, `ScanMeaning`, `RepositoryScan` | regression detection, revalidation candidates, the scan, and how it follows the CVE repository |
| `Accounts` | login, lockout and sessions |
| `LatexEscape`, `LatexMeaning` | escaping for the Overleaf export, and what TeX sets for it |
| `Basics` | `Option`, `Result`, time-ordered rows |

Code that changes things step by step is modelled by classes and loops, proved against functions;
the theorems over whole runs are lemmas about those functions. The modules named after what something
means, says or does (`CveLog`, `SyncMeaning`, `StrategyFields`, `MetricsMeaning`, `VpnCases`, `TelecomCases`,
`EvidenceContent`, `StudioRoles`, `ScanMeaning`, `RepositoryScan`, `RegressionMeaning`, `LatexMeaning`) state it in
terms of stored values, logged calls and plain numbers, without the functions the code is proved against.

## What the proofs show about the code

- **Ranking of sources.** `merge` records the holder of description, CVSS and vendor as `nvd`, the
  best rank, so the ranking never displaces anything: the first non-empty value stays. A description
  that is the empty string does get displaced.
- **Labels.** The generators' labels are right for every seed exactly when the configured limits fit
  the strategies' own constants (256 for paths and SDP attributes, at least 8192 for bodies). Outside
  of that `LabelsWrong` produces a stream of draws, all zeros, with a wrong label.
- **Sync.** Running a feed again never changes a record, but it logs updates whenever accepted records of
  one CVE disagree on the EPSS score, the relevance or a KEV date, and only then (`SyncIsIdempotent`).
- **History and crashes.** A merge stores the record before it appends its log lines. A process that dies in
  between loses these lines for good (`LostForGood`): the field reads in the history as before, until a later
  change of it is logged (`ReplayAgreesWithState`). An intact log rebuilds every past state
  (`IntactLogReplays`), and a log is right throughout only if it is intact (`AlwaysFaithfulIff`).
- **Studio edits.** `edit_draft` copies without validating, while loading validates. An edit that sets
  one of the four texts to the empty string is stored, and from then on the version cannot be loaded
  and its experiment cannot get a new version (`LoadsIff`, `UnreadableIsStuck`, `EditedAway`).
- **Retiring.** Retiring a version does not withdraw what was published: the content published last for
  an experiment keeps running, whatever became of its version (`PublishedFile`, `ContentRunsIff`,
  `RetiredRuns`).
- **Shadowing.** The runner takes the first file, by name, that names the experiment. A file the directory
  came with can keep approved content from running (`ContentRunsIff`, `ShadowedDoesNotRun`); it cannot run
  itself, since nothing but the studio approves.
- **Approvals and crashes.** An approval is saved before it is recorded. A process that dies in between
  leaves an approved version that can be run and has no review on record; that is the only way to get
  one (`ReviewedIff`, `ApprovalWithoutRecord`). Any decision can be lost that way, and the history of the
  version is then no longer a path from DRAFT to its status, unless the lost moves lead back to where they
  began (`HistoryIsChained`, `LostAndStillChained`, `LostAndBroken`). What survives every such crash is
  `StudioInvariant`.
- **Regressions and crashes.** A validation is recorded before it is compared with the one before. A worker
  that dies or fails in between leaves a regression that no later check notices (`RegressionChainBound`,
  `UnnoticedRegression`).
- **Backslashes in exports.** The pass that escapes braces runs after the one for backslashes and escapes the
  empty group that one has just written, so a backslash is set as a backslash followed by a pair of visible
  braces. An export shows its text exactly when the text has no backslash (`ExportIsFaithfulIff`).
- **Manual candidates.** The manual route skips the duplicate check its siblings make, and two pending
  rows make later lookups raise (`RaiseByHandKeepsIff`, `RaisedTwice`).

## Assumptions

- The clock never runs backwards; for the regression chain, validations carry strictly increasing times,
  since rows with equal times have no promised order.
- A single write is atomic; there is one worker at a time; API calls do not interleave. A worker that runs
  a job or records its validation may die between any two writes, and so may a sync between storing a
  record and logging it, and a process that moves a studio version. Logins, revalidation scans and the
  remaining calls run to their end or raise; a login that dies gives no answer about the password.
- The directory of experiments holds definition files only; whatever does not parse is skipped by the lookup.
- Random tokens, run ids and candidate ids are fresh, and the token hash is injective, so sessions are
  keyed by token and candidates by row.
- Floating-point numbers are reals, and printing a logged value is injective within its field.
- A random generator is a stream of draws; a seed is one such stream, and every theorem is for all of them.
- Python's `str` on JSON values is a parameter; lower-casing is ASCII, which suffices for the markers looked for.
- The verdict of the CVE-id and URL patterns on a contribution, the domain classifier, the correlation
  ranking, the experiment lookup of the scan, and whether a draft's references check out are parameters.
- The actor's role, which the audit trail stores beside each approval decision, is kept in the decision.

## Model

| member | source | states |
|---|---|---|
| `CveMerge.Merge` | src/zeroshield/intelligence/dedup.py:68-218 | Raises exactly when an identifier is bad or a score is out of range (CVSS 0 to 10, EPSS score and percentile 0 to 1); otherwise the merged record is the field-by-field rule `Absorb` applied to the existing record (or to a blank one), the log is exactly the field-level difference of the two records, and `isNew` says there was none before. |
| `CveMerge.MergeShared` | src/zeroshield/intelligence/dedup.py:98-114 | Description and the CVSS triple: a held value never yields because its holder is always recorded with the best rank; the log lines are the changes of those two fields. |
| `CveMerge.MergeKev` | src/zeroshield/intelligence/dedup.py:125-136 | The KEV block: listing is sticky, dates and ransomware note follow the newest listing contribution, each change is logged. |
| `CveMerge.MergeFields` | src/zeroshield/intelligence/dedup.py:78-163 | The whole merge of reassigned locals and appended log lines equals the declarative rule, and its log equals the difference of old and new record, in order. |
| `CveHistory.VulnerabilityRepository.AppendHistory` | src/zeroshield/intelligence/repository.py:235-250 | The log grows by exactly the given lines. |
| `CveHistory.VulnerabilityRepository.GetVulnerabilityAsOf` | src/zeroshield/intelligence/repository.py:271-293 | The loop over the ordered history computes the replay of all lines observed up to the instant, and answers nothing exactly when there are none. |
| `CveHistory.ReplayDiff` | src/zeroshield/intelligence/dedup.py:78-145 | Replaying the log lines of one merge over any state overwrites exactly the fields the merge changed, with their new values. |
| `CveHistory.LogShows` | src/zeroshield/intelligence/sync_service.py:97-101 | After every run of merges and classifications, merges that die before logging included, replaying the log of a CVE gives each logged field the value it had after its last logged change. |
| `CveHistory.ReplayUpTo` | src/zeroshield/intelligence/repository.py:271-293 | Replaying up to an instant is replaying the log as it stood after the last merge observed by then. |
| `CveHistory.ReplayAgreesWithState` | src/zeroshield/intelligence/repository.py:235-293 | For every run, every instant and each of the seven logged fields: the as-of view reads as the field did after its last logged change by then, and reads right if and only if no change of it since is missing from the log or the missing ones led back to where they began; the whole view is that of the record if and only if this holds for every field. |
| `CveHistory.IntactLogReplays` | src/zeroshield/intelligence/repository.py:271-293 | If no merge of the CVE died before logging a change, then for every instant the as-of view gives each of the seven logged fields the value the record had then, omits exactly the fields still at their initial value, and is absent exactly when nothing had changed yet. |
| `CveHistory.AlwaysFaithfulIff` | src/zeroshield/intelligence/sync_service.py:97-101 | The log gives every field right at every point of a run if and only if no merge that changed one died between storing the record and logging it. |
| `CveHistory.LostForGood` | src/zeroshield/intelligence/sync_service.py:95-101 | Merging a contribution again whose log lines were lost logs nothing, in any state of the repository. |
| `CveClosedForm.MergeClosedForm` | src/zeroshield/intelligence/dedup.py:54-163 | Over any sequence of contributions: description and vendor are the first non-empty ones, the CVSS triple comes whole from the first with a score, the EPSS triple whole from the last, KEV listing is a sticky or with the latest dates of listing contributions, published is the minimum, modified the maximum, CWE ids and sources the union. |
| `CveClosedForm.OrderIrrelevant` | src/zeroshield/intelligence/dedup.py:120-163 | CWE ids, sources, KEV listing, published and modified are the same for every permutation of the contributions. |
| `CveClosedForm.StoredIsFold` | src/zeroshield/intelligence/sync_service.py:85-108 | Every stored record is the fold of the contributions accepted for its CVE in the run, domain guess aside; a CVE without any has no record. |
| `CveLog.LinesAreAccounts` | src/zeroshield/intelligence/dedup.py:78-145 | Over every run: a merge that lives to log writes, for each of the seven logged fields, exactly one line if the stored value changed and none otherwise; the line carries the CVE, the source, the time, the value stored before and the value stored after, and the lines come in the order of the fields. |
| `CveLog.EveryLineHasItsMerge` | src/zeroshield/intelligence/sync_service.py:95-101 | Every line of the log is one of those that some logged merge of a valid contribution wrote. |
| `CveLog.OldValueIsReplayed` | src/zeroshield/intelligence/repository.py:271-293 | The old value on a line is what replaying the lines before it shows, unless lines of that field are missing there. |
| `CveLog.ScoresInRange` | src/zeroshield/intelligence/dedup.py:68-218 | Whatever was fed in, stored CVSS scores are within 0 to 10 and stored EPSS scores and percentiles within 0 to 1. |
| `CveSync.SyncService.RunSync` | src/zeroshield/intelligence/sync_service.py:58-187 | On every exit path fetched = created + updated + unchanged + failed, created is the growth of the table, the status follows from the counters, and the repository is the ingested (and, when asked for, reclassified) feed. |
| `CveSync.SyncService.ConsumeAll` | src/zeroshield/intelligence/sync_service.py:80-115 | The loop with its five counters and the set of touched CVEs computes the tally of the feed. |
| `CveSync.SyncService.Consume` | src/zeroshield/intelligence/sync_service.py:85-115 | One record: rejected, an advisory without CVE, or merged, stored and logged and classed as created, updated or unchanged; a process that dies after storing leaves the record without its log lines. |
| `CveSync.SyncService.Regenerate` | src/zeroshield/intelligence/sync_service.py:136-161 | The loop over touched CVEs stores the classifier's answer on exactly those records. |
| `CveSync.TallyConserves` | src/zeroshield/intelligence/sync_service.py:80-115 | Every fetched record is counted once and the created ones are the growth of the table, for every feed. |
| `SyncMeaning.CountersMean` | src/zeroshield/intelligence/sync_service.py:80-115 | For every feed: failed is the number of records that cannot be merged and are no advisories, created the number of those that are the first of a CVE not stored before, updated the number of those of a known CVE whose merge makes the log longer. |
| `SyncMeaning.StatusMeans` | src/zeroshield/intelligence/sync_service.py:116-169 | For every feed: FAILED exactly when the fetch broke off or the feed is not empty and every record was refused, COMPLETED exactly when the fetch got through and none was, PARTIAL exactly when the fetch got through and some were and some were not. |
| `SyncMeaning.IngestIsRun` | src/zeroshield/intelligence/sync_service.py:80-108 | A sync without regeneration is a stretch of a repository run with one logged merge per usable record, so every theorem about runs applies to it. |
| `SyncMeaning.RegenerationMeans` | src/zeroshield/intelligence/sync_service.py:136-161 | After a sync that got through with regeneration each record the feed merged carries the classifier's answer on its own vendor, description and CWE ids; otherwise, and on every other record, the sync changes nothing beyond the merges. |
| `CveIdempotence.CombineAbsorbs` | src/zeroshield/intelligence/dedup.py:98-163 | Merging two contributions one after the other is merging their combination: the first of what is held, the last of what follows the newest, unions, minimum and maximum. |
| `CveIdempotence.PassIsQuiet` | src/zeroshield/intelligence/sync_service.py:85-115 | Over a table that knows every CVE of a feed a pass creates nothing, and it updates nothing, and logs nothing, if and only if no record of the feed would change a logged field of its stored CVE. |
| `CveIdempotence.SyncIsIdempotent` | src/zeroshield/intelligence/sync_service.py:80-187 | For every feed, repeated CVEs included: running it again creates nothing and leaves every record unchanged but for `last_updated_at`; it updates nothing, and logs nothing, if and only if accepted records of one CVE agree on EPSS score and relevance wherever both give it and on the KEV dates wherever both list the CVE and give the date. |
| `CveIdempotence.DistinctFeedRepeats` | src/zeroshield/intelligence/sync_service.py:80-187 | A feed of distinct CVEs run again creates, updates and logs nothing. |
| `CveIdempotence.RepeatedReadings` | src/zeroshield/intelligence/dedup.py:116-123 | An instance: a feed with two EPSS readings of one CVE is repeated without an update if and only if the readings are equal. |
| `Strategies.ParserFollowsDecision` | src/zeroshield/strategies/vpn/strict_mitigation.py:25-28 | For all four strategies the parser is reached exactly on acceptance, and the weak baselines never raise. |
| `Strategies.StrictDominates` | src/zeroshield/strategies/telecom/strict_mitigation.py:23-78 | On any input at all, what the weak baseline of a domain blocks the strict mitigation does not accept. |
| `StrategyFields.SameIsPlain` | src/zeroshield/strategies/telecom/strict_mitigation.py:69-72 | Two JSON values compare equal exactly when they are the same value once all numbers and booleans inside are read as reals. |
| `StrategyFields.StrictVpnMeans` | src/zeroshield/strategies/vpn/strict_mitigation.py:25-92 | On any input: accepted exactly when method and path are non-empty texts, the path has at most 256 characters and neither two dots in a row (also percent-encoded, in either case) nor an encoded NUL, the declared length is an integer from 0 to 8192 equal to the actual one, header values and query parameters print in at most 512 characters, header names differ, and the encoding is utf-8 or ascii; raises exactly on a header name or encoding it cannot hash once the earlier checks pass; blocked and logged otherwise. |
| `StrategyFields.StrictTelecomMeans` | src/zeroshield/strategies/telecom/strict_mitigation.py:23-78 | On any input: accepted exactly when the header names can be hashed, include Call-ID, From and To and differ, the declared length is an integer from 0 to 4096 equal to the actual one, attribute values print in at most 256 characters, the sequence number is the expected one, and state and method are one of the three legal pairs; raises exactly on a value it must hash and cannot; blocked and logged otherwise. |
| `StrategyFields.WeakMeans` | src/zeroshield/strategies/telecom/weak_baseline.py:16-29 | The weak strategies accept exactly on a non-empty method and path (VPN), or on a known method, a non-empty header list and a known state (Telecom); they never raise and never log. |
| `StrategyFields.ExecutedCase` | src/zeroshield/runners/experiment_runner.py:136-195 | Running a case: only a raise is an error, and is recorded as a block; the parser sees exactly what is accepted; the strict strategies log exactly what they do not accept and the weak ones nothing. |
| `Metrics.CalculateMetrics` | src/zeroshield/metrics/calculator.py:19-75 | Raises exactly when some result has no case; otherwise the rates over the results that did not error and the mean latency over all. |
| `Metrics.ComplementaryRates` | src/zeroshield/metrics/calculator.py:37-54 | Block rate and miss rate sum to one, and so do acceptance and false alarms, whenever their group is non-empty; an empty group scores zero on both. |
| `MetricsMeaning.LastCaseCounts` | src/zeroshield/metrics/calculator.py:28 | Of several cases with one id the last one gives the expectation. |
| `MetricsMeaning.BlockingRates` | src/zeroshield/metrics/calculator.py:39-54 | For every run over a dataset: block rate, miss rate and parser reach are the shares, among the results that did not error and whose case is to be blocked, of those blocked, accepted and let through to the parser; the share of an empty set is zero. |
| `MetricsMeaning.AcceptingRates` | src/zeroshield/metrics/calculator.py:40-51 | Likewise valid acceptance and false alarms, among those whose case is to be accepted. |
| `MetricsMeaning.ScoredCount` | src/zeroshield/metrics/calculator.py:30-38 | As many results are scored as did not error. |
| `MetricsMeaning.LogCounts` | src/zeroshield/metrics/calculator.py:56-59 | What is counted for log completeness are the blocked results that did not error, and the logged ones among them. |
| `MetricsMeaning.CountedRates` | src/zeroshield/metrics/calculator.py:37-59 | Success rate and log completeness are the ratios of these counts, zero when there is nothing to count. |
| `MetricsMeaning.MeanLatency` | src/zeroshield/metrics/calculator.py:61 | The mean latency is the sum of the latencies of all results over their number, zero without results. |
| `Domination.ScoreRun` | src/zeroshield/runners/experiment_runner.py:136-195 | Scoring a run over a dataset with unique ids never raises, and without errors it scores every case with its own expectation. |
| `Domination.ParserReachIsMissRate` | src/zeroshield/metrics/calculator.py:40-54 | For every strategy and dataset, raising cases included, parser_reach_rate equals false_negative_rate. |
| `Domination.RatesDominate` | src/zeroshield/metrics/calculator.py:28-61 | Case-by-case domination of decisions gives domination of block, miss and acceptance rates. |
| `Domination.StrictRunDominates` | src/zeroshield/metrics/comparator.py:23-43 | For every dataset (any inputs, any labels) on which the strict strategy does not raise: block rate at least the baseline's, miss rate, parser reach and valid acceptance at most, improvement non-negative. |
| `Verdict.CheckLimits` | src/zeroshield/verdict/engine.py:122-141 | The list names exactly the limits that are missed, of the four on false positives, false negatives, acceptance and latency. |
| `Verdict.ComputeVerdict` | src/zeroshield/verdict/engine.py:75-173 | The label by the threshold rules; the failed list is empty exactly for EFFECTIVE, names the one rule for INCONCLUSIVE and REGRESSION, and otherwise names exactly the limits that are missed together with the improvement that is missing for the next better label. |
| `MetricsMeaning.VerdictIff` | src/zeroshield/verdict/engine.py:75-173 | For any thresholds and any two measured modes, each of the five labels if and only if its condition on case count, block rates, rates of the mitigation and mean latencies holds; the overhead is what the mitigation takes more than the baseline. |
| `MetricsMeaning.DefaultVerdictIff` | src/zeroshield/verdict/engine.py:23-36 | The same at the default thresholds, in numbers: 5 cases, a gain of 0.5 or 0.1, at most 0.05 false positives and 0.10 false negatives, at least 0.95 accepted, at most 100 ms, no drop of the block rate. |
| `Verdict.SeverityRanks` | src/zeroshield/assurance/regression.py:16-22 | Verdicts from worst to best are REGRESSION, INEFFECTIVE, INCONCLUSIVE, PARTIALLY EFFECTIVE, EFFECTIVE; one is less severe than another exactly when it comes earlier in this list. |
| `Verdict.VerdictIsMonotone` | src/zeroshield/verdict/engine.py:122-164 | With equal case counts and no previous comparison, metrics at least as good in every component never get a worse verdict, whatever the thresholds. |
| `Verdict.EffectiveMeans` | src/zeroshield/verdict/engine.py:122-164 | For metrics the calculator produced: passing the acceptance threshold passes the false-positive one, and EFFECTIVE means mitigation block rate at least 0.9, baseline at most 0.5 and both case groups non-empty. |
| `Datasets.CorrectRates` | src/zeroshield/metrics/calculator.py:37-54 | A dataset labelled by the strict strategy's decisions and accepted whole by the baseline measures baseline block rate 0, no false positives or negatives, and mitigation block rate 1 if anything is to be blocked. |
| `Datasets.CorrectVerdict` | src/zeroshield/verdict/engine.py:75-173 | Such a dataset gets EFFECTIVE if and only if it has five cases, both kinds of expectation, and at most 100 ms overhead. |
| `VpnGenerator.BuildTestSet` | src/zeroshield/generators/vpn_generator.py:51-170 | The seven loops with their random draws produce the dataset `Cases`; an empty configuration raises; ids are distinct. |
| `VpnGenerator.CaseIdsUnique` | src/zeroshield/generators/vpn_generator.py:56-163 | For every seed and configuration the case ids are pairwise distinct. |
| `VpnCases.DatasetIs` | src/zeroshield/generators/vpn_generator.py:56-163 | Every dataset, part by part: valid cases with verb by coin and path by turn, pairs of paths filled up to the limit and one beyond, and five kinds of malformed cases, each the LOGIN request with one thing set wrong; which draw decides what, and in which range. |
| `VpnCases.LoginPasses` | src/zeroshield/generators/vpn_generator.py:172-181 | The LOGIN request that the malformed cases spoil passes both strategies, so what is set wrong is the reason for the block. |
| `VpnLabels.LabelsReduce` | src/zeroshield/generators/vpn_generator.py:56-163 | For one seed, every label is the strict decision if and only if the boundary sits at the strategy's limit and every oversized body really exceeds it. |
| `VpnLabels.LabelsCorrect` | src/zeroshield/generators/vpn_generator.py:22-163 | With maximum path length 256 (if there are boundary cases) and maximum body at least 8192 (if there are oversized ones), for every seed every label is the strict strategy's decision, neither strategy raises, and the baseline accepts every case. |
| `VpnLabels.LabelsWrong` | src/zeroshield/generators/vpn_generator.py:22-105 | Under any other configuration some stream of draws gives a case whose label is not what the strict strategy decides, so the condition is exact. |
| `VpnLabels.Composition` | src/zeroshield/generators/vpn_generator.py:51-170 | How many cases a configuration yields and exactly when it expects an accept and a block. |
| `VpnLabels.VpnEndToEnd` | src/zeroshield/generators/vpn_generator.py:51-170 | Generate, run both strategies, measure, compare: baseline block rate 0, mitigation 1, no false decisions, and EFFECTIVE if and only if there are five cases, both expectations and at most 100 ms overhead. |
| `TelecomGenerator.BuildTestSet` | src/zeroshield/generators/telecom_generator.py:48-153 | The eight loops with their random draws produce the dataset `Cases`; an empty configuration raises; ids are distinct. |
| `TelecomGenerator.CaseIdsUnique` | src/zeroshield/generators/telecom_generator.py:53-146 | For every seed and configuration the case ids are pairwise distinct. |
| `TelecomCases.DatasetIs` | src/zeroshield/generators/telecom_generator.py:53-146 | Every dataset, part by part: valid cases with the three legal transitions by turn, pairs of attribute values at the limit and one beyond, and six kinds of malformed cases, each the INVITE message with one thing set wrong; which draw decides what, and in which range. |
| `TelecomCases.InvitePasses` | src/zeroshield/generators/telecom_generator.py:155-166 | The INVITE message that the malformed cases spoil passes both strategies. |
| `TelecomLabels.LabelsReduce` | src/zeroshield/generators/telecom_generator.py:53-146 | For one seed, every label is the strict decision if and only if the boundary sits at the strategy's limit and every oversized attribute really exceeds it. |
| `TelecomLabels.LabelsCorrect` | src/zeroshield/generators/telecom_generator.py:20-146 | With a fitting maximum SDP length, for every seed every label is the strict strategy's decision, neither strategy raises, and the baseline accepts every case. |
| `TelecomLabels.LabelsWrong` | src/zeroshield/generators/telecom_generator.py:20-90 | Under any other configuration some stream of draws gives a case whose label is not what the strict strategy decides. |
| `TelecomLabels.Composition` | src/zeroshield/generators/telecom_generator.py:48-153 | How many cases a configuration yields and exactly when it expects an accept and a block. |
| `TelecomLabels.TelecomEndToEnd` | src/zeroshield/generators/telecom_generator.py:48-153 | The same end-to-end statement for the Telecom domain. |
| `RunJobs.Worker.SaveRunEvidence` | src/zeroshield/repositories/evidence_repository.py:69-80 | Refuses a directory that already holds something, otherwise writes the five artefacts in order, up to the crash or fault. |
| `RunJobs.Worker.SaveEvidence` | src/zeroshield/orchestration/experiment_orchestrator.py:46-99 | Both bundles, then the comparison pointer: the writes made are a prefix of the planned ones. |
| `RunJobs.Worker.RunExperiment` | src/zeroshield/services/experiment_service.py:101-157 | Events, policy refusal, strategies and evidence in the order of the source, stopped by an exception at any point. |
| `RunJobs.Worker.ProcessRunJob` | src/zeroshield/worker/processor.py:155-293 | What reaches the disk is the planned sequence of writes and events, cut off where the worker died. |
| `EvidenceSafety.PlanSafe` | src/zeroshield/worker/processor.py:177-282 | Every write a job makes is safe where it is made: no artefact is overwritten, artefacts are written in the order experiment, dataset manifest, results, metrics, manifest, comparisons and COMPLETED records only point at complete runs. |
| `EvidenceSafety.EvidenceIsSound` | src/zeroshield/repositories/evidence_builder.py:76-82 | Over every run with crashes between any two writes, exceptions anywhere and redelivered messages: a comparison names two runs with all five artefacts, a manifest implies the other four, a COMPLETED job's two runs are complete. |
| `EvidenceSafety.EvidenceIsImmutable` | src/zeroshield/repositories/evidence_repository.py:69-92 | No written artefact ever changes or disappears later in the run. |
| `EvidenceSafety.LoadLatestSucceeds` | src/zeroshield/services/experiment_service.py:194-261 | In every reachable state loading the latest evidence finds its runs, and finds nothing exactly when nothing was compared yet. |
| `EvidenceSafety.SubmissionTimeSurvives` | src/zeroshield/api/routes/experiments.py:158-178 | In every run a job has a record exactly when it was submitted, the record carries the time of the first submission through any number of redeliveries, and no job is queued without a record. |
| `EvidenceSafety.TraceLanguage` | src/zeroshield/worker/processor.py:177-282 | Each call emits a prefix of the six lifecycle events and one terminal event matching the stored status; COMPLETED only after all six, DENIED only after exactly two, no strategy runs on a denial. |
| `EvidenceSafety.StoredTrail` | src/zeroshield/worker/processor.py:200-214 | However far a call gets, the stored trail grows by exactly the emitted events that the event store took; a failed event write stops nothing. |
| `EvidenceContent.DeliveryOutcome` | src/zeroshield/worker/processor.py:216-293 | A delivery that is worked off leaves its job COMPLETED with its own two runs exactly when the experiment is found, resolvable, loadable, allowed and consistent, both run directories are free and no exception strikes its seventeen writes; DENIED exactly when the policy turns it down before any exception; FAILED otherwise. Only the first stores a comparison. |
| `EvidenceContent.LatestEvidence` | src/zeroshield/orchestration/experiment_orchestrator.py:75-90 | Over every run of crashes, exceptions and redeliveries: the latest evidence of an experiment is that of the delivery that stored its comparison last. The baseline directory holds exactly the five artefacts of that delivery's baseline and the mitigation directory those of its mitigation, the comparison is its report over these two runs, and loading returns its two results. |
| `EvidenceContent.CompletedJob` | src/zeroshield/worker/processor.py:216-262 | In every run a COMPLETED job was completed by one of its own deliveries, names that delivery's two runs, and their directories hold exactly what that delivery produced. |
| `EvidenceContent.RecordsFollowLog` | src/zeroshield/worker/processor.py:177-282 | In every run the record of a job is queued as first submitted until a delivery of it gets to write, running until that delivery's last write but one, and then what the delivery came to; it keeps its submission time. |
| `EvidenceContent.DeliveryEvents` | src/zeroshield/worker/processor.py:177-282 | The events of a delivery spelled out: all six stages and COMPLETED, or PREPARING, SAFETY_CHECK and DENIED, or a prefix of the stages and FAILED. |
| `Studio.EvaluatePolicy` | src/zeroshield/policies/safety_policy.py:27-48 | The four results are: no external targeting, synthetic input, not weaponised, and a local unit test or an approved definition; allowed exactly when all are true. |
| `Studio.ExperimentStudio.LatestVersionNumber` | src/zeroshield/studio/repository.py:66-82 | The largest version number, or an exception exactly when a row of the experiment does not validate. |
| `Studio.ExperimentStudio.CreateVersion` | src/zeroshield/api/routes/studio.py:194-233 | A DRAFT under the next number, or no change on a wrong role, an unreadable row or an invalid draft. |
| `Studio.ExperimentStudio.EditVersion` | src/zeroshield/api/routes/studio.py:248-275 | The four texts change, exactly for a RESEARCHER or ADMIN and a version that loads and is a DRAFT; nothing else does. |
| `Studio.ExperimentStudio.DoTransition` | src/zeroshield/api/routes/studio.py:336-389 | Exactly when role, four-eyes rule and transition table allow it: saves the moved version, appends the decision and publishes on approval, three separate writes of which only the first few are made if the process dies. |
| `Studio.ExperimentStudio.SubmitVersionRun` | src/zeroshield/api/routes/studio.py:502-525 | Publishes the definition again, exactly for a version that loads and is APPROVED and a user who is not a VIEWER. |
| `StudioSafety.StudioInvariant` | src/zeroshield/models/experiment_version.py:44-59 | Over every run, processes dying between two writes of a transition included: the definition is APPROVED exactly when the workflow is; version numbers have no gaps; every decision on record takes an allowed way and was taken in a role that may take it, an approval by somebody else or an ADMIN; every approved file holds the content of an approved or retired version of the experiment it is named after. |
| `StudioSafety.HistoryIsChained` | src/zeroshield/studio/approval.py:22-54 | In every run, crashes included, a version's history is a path of allowed edges from DRAFT to its status if and only if no decision was recorded behind lost moves that had led elsewhere, and the moves lost at its end lead back to where they began. |
| `StudioSafety.AlwaysChainedIff` | src/zeroshield/api/routes/studio.py:378-381 | A version's history is such a path at every point of a run if and only if none of its decisions was lost between saving the version and appending the decision. |
| `StudioSafety.ContentIsFrozen` | src/zeroshield/studio/builder.py:152-162 | From any point of a run on no version disappears, no decision is rewritten, and content that left DRAFT never changes. |
| `StudioSafety.OneApproval` | src/zeroshield/studio/approval.py:22-37 | In every run an approved or retired version has exactly one approval, on record or lost in a crash between save and append, and any other version has none. |
| `StudioSafety.ReviewedIff` | src/zeroshield/api/routes/studio.py:378-381 | An approved or retired version has on record its approval from review, by a REVIEWER other than its creator or by an ADMIN, if and only if the process did not die between saving that approval and appending it. |
| `StudioSafety.ApprovedContentSafety` | src/zeroshield/policies/rules.py:38-48 | Starting without approved files, any file the policy lets through for an experiment run is the frozen content of a version whose history shows the approval from UNDER_REVIEW by a REVIEWER other than its creator or by an ADMIN, unless a crash lost that approval. |
| `StudioSafety.NumbersAreContiguous` | src/zeroshield/studio/repository.py:80-82 | The version numbers of each experiment are exactly 1 to n. |
| `StudioSafety.LoadsIff` | src/zeroshield/studio/builder.py:152-162 | In every run a version loads if and only if no edit that took effect on it put a text to the empty string, since edits copy without the validators that loading runs. |
| `StudioSafety.UnreadableIsStuck` | src/zeroshield/studio/repository.py:61-82 | A version that no longer loads never changes again and its experiment never gets another version, in every continuation. |
| `StudioRoles.TransitionMeans` | src/zeroshield/api/routes/studio.py:336-389 | In every run a transition takes effect exactly when the version loads, the way is the caller's to take (authors submit and take back, reviewers start, approve, reject and retire, an ADMIN may do either, nobody returns to DRAFT) and an approval is not the author's own unless given by an ADMIN; the content stays, the decision is recorded by the second write, an approval is published by the third. |
| `StudioRoles.EditMeans` | src/zeroshield/api/routes/studio.py:248-275 | In every run only a RESEARCHER or ADMIN edits, only a DRAFT that loads, and each of the four texts is the one given or stays. |
| `StudioRoles.CreateMeans` | src/zeroshield/api/routes/studio.py:194-233 | In every run only a RESEARCHER or ADMIN creates, and gets a DRAFT of the given content in their name under the first number the experiment has not used, as long as every version of it still loads. |
| `StudioRoles.SubmitRunMeans` | src/zeroshield/api/routes/studio.py:502-525 | In every run anybody but a VIEWER submits a run of an approved version, which publishes exactly its definition under the experiment's name. |
| `StudioRoles.ViewerChangesNothing` | src/zeroshield/api/routes/studio.py:199-254 | Whatever a VIEWER asks for, nothing changes. |
| `StudioRoles.MoversHaveTheRole` | src/zeroshield/api/routes/studio.py:403-485 | Over every run: every move of a version, recorded or lost in a crash, was asked for by a user with the role it takes, who did not approve their own version unless ADMIN. |
| `StudioRoles.DecisionsAreMoves` | src/zeroshield/api/routes/studio.py:378-381 | Every decision on record is a move that its actor made, in that role, by a call of the run. |
| `StudioRoles.DecisionsHaveTheRole` | src/zeroshield/api/routes/studio.py:403-485 | Over every run: every recorded decision to UNDER_REVIEW, APPROVED, REJECTED or RETIRED was taken as REVIEWER or ADMIN, every one to READY_FOR_REVIEW as RESEARCHER or ADMIN, none leads to DRAFT, and an approval comes from UNDER_REVIEW and, unless by an ADMIN, from somebody other than the creator. |
| `StudioRoles.VersionsWereCreated` | src/zeroshield/api/routes/studio.py:194-233 | Every version was created, as a DRAFT with the content given, by a call of the RESEARCHER or ADMIN it names. |
| `StudioPublishing.FindExperiment` | src/zeroshield/experiments/discovery.py:42-69 | Finds nothing exactly when no file names the experiment, and otherwise the definition in the first such file by name. |
| `StudioPublishing.BeforeIff` | src/zeroshield/experiments/discovery.py:42-69 | The files are taken in code-point order: a name comes before another that it is a proper prefix of, or that has the greater character where the two first differ. |
| `StudioPublishing.HarmlessRuns` | src/zeroshield/policies/rules.py:5-48 | What the policy lets through: no external targeting, synthetic input, not weaponised and, for an experiment run, approved. |
| `StudioPublishing.PublishedFile` | src/zeroshield/studio/builder.py:165-176 | In every run the file of an experiment is approved content if and only if one of its versions was published by approval or by submitting a run, and then it is the content of the one published last. |
| `StudioPublishing.OwnFileFound` | src/zeroshield/experiments/discovery.py:58-69 | In every run the lookup finds an experiment's own file if and only if the file names the experiment and no file of the original directory that names it sorts before and was not published over. |
| `StudioPublishing.ContentRunsIff` | src/zeroshield/worker/processor.py:216-217 | In every run the content of a version, retired ones included, is what the runner finds for its experiment and the policy lets run, if and only if it meets SAFE-001 to SAFE-003, is the content of the version of its experiment that was published last, and no file of the original directory shadows the published one. |
| `StudioExamples.ApprovalWithoutRecord` | src/zeroshield/api/routes/studio.py:378-381 | For every draft that validates and meets SAFE-001 to SAFE-003: approved by a process that dies before recording it, and submitted, it passes the policy with no review on record. |
| `StudioExamples.RetiredRuns` | src/zeroshield/studio/builder.py:165-176 | For every such draft over a directory without a shadowing file: approved and retired, its content still runs. |
| `StudioExamples.ShadowedDoesNotRun` | src/zeroshield/experiments/discovery.py:58-69 | Over a directory with another file that names the experiment and sorts first, approved content does not run. |
| `StudioExamples.EditedAway` | src/zeroshield/studio/builder.py:152-162 | Every draft that validates can be edited to a version that does not load. |
| `StudioExamples.LostAndStillChained` | src/zeroshield/api/routes/studio.py:378-381 | Sent back and taken up again by processes that die before recording it, a version has lost two decisions and its history still leads to its status. |
| `StudioExamples.LostAndBroken` | src/zeroshield/api/routes/studio.py:378-381 | Submitted by a process that dies before recording it and then put under review, a version has a history that leads nowhere from DRAFT. |
| `Regression.DetectRegressions` | src/zeroshield/assurance/regression.py:59-120 | Each reason is given exactly when its figure got worse by more than the tolerance, or the verdict worse at all; there is none if and only if the newer validation is within one tolerance step of the older. |
| `Regression.ChainBound` | src/zeroshield/assurance/regression.py:59-120 | Steps within tolerance add up linearly, whatever the tolerances. |
| `Regression.DominationIsNoRegression` | src/zeroshield/assurance/regression.py:71-120 | Metrics at least as good in every component over as many cases are never a regression, verdict included. |
| `Assurance.AssuranceRepository.FindPending` | src/zeroshield/assurance/repository.py:269-285 | Finds the pending row of a control and trigger, nothing if there is none, and raises exactly when there are two. |
| `Assurance.AssuranceRepository.CreateIfNew` | src/zeroshield/assurance/revalidation.py:65-80 | Adds one pending row unless one is pending; raises exactly when two are. |
| `Assurance.AssuranceRepository.RecordAndCheck` | src/zeroshield/worker/processor.py:36-121 | Appends the validation with its verdict, and then, in a separate write, raises a REGRESSION candidate exactly when it is out of tolerance with the previous one of its version and none is pending; a worker that dies or fails in between has made only the first write. |
| `Assurance.AssuranceRepository.CheckRegression` | src/zeroshield/worker/processor.py:97-121 | Raises a REGRESSION candidate exactly when the newest validation of the version is out of tolerance with the one before and none is pending. |
| `Assurance.AssuranceRepository.Decide` | src/zeroshield/api/routes/revalidation.py:133-165 | Approves or dismisses, only a pending candidate. |
| `Revalidation.ScanControl` | src/zeroshield/assurance/revalidation.py:95-190 | The six triggers of one control, in the order of the source, or nothing for a control without validations. |
| `Revalidation.FiredIsUnion` | src/zeroshield/assurance/revalidation.py:95-190 | The keys the nested loops visit are exactly those whose declarative condition holds. |
| `Revalidation.Scan` | src/zeroshield/assurance/revalidation.py:83-192 | Raises exactly when a key that fires is pending twice; otherwise every firing key is pending afterwards and exactly those that were not got one new candidate, with the right experiment. New candidates come control by control and, for one control, in the order scheduled, new version, change log, advisory, new related CVE. |
| `ScanMeaning.FiresIff` | src/zeroshield/assurance/revalidation.py:95-190 | A trigger fires exactly when the control is listed, its newest validation is the latest row of the control (the one recorded last if several share the time), and: it is older than the window; a version has no validation; a related CVE's log since then lists it as KEV, or moves its EPSS score by at least 0.2 up or down; an advisory for one was updated, or if it never was, published, since then; or a record of its domain, touched since then and neither the CVE itself nor related already, correlates. |
| `ScanMeaning.ScanCreatesWhatIsWanted` | src/zeroshield/assurance/revalidation.py:83-192 | After a scan that returns normally a key is pending exactly when it was or has such a reason; earlier candidates are untouched; each new one is pending, is the only new one of its key, had none pending, and proposes the experiment of the newest validation, or none for a new version. |
| `ScanMeaning.ScanRaisesIff` | src/zeroshield/assurance/repository.py:269-285 | A scan raises exactly when a key with such a reason is pending twice already. |
| `RepositoryScan.ScanFollowsRepository` | src/zeroshield/assurance/revalidation.py:122-154 | From the runs of the CVE repository to the scan: an EPSS candidate is pending afterwards exactly when one was before, or a merge that was logged after the control's newest validation moved the stored EPSS score of a related CVE from x to y with y - x or x - y at least 0.2; a KEV candidate exactly when one was before, or such a merge put a related CVE on the stored KEV list; no other row of these triggers is added. |
| `AssuranceRuns.Perform` | src/zeroshield/api/routes/revalidation.py:95-165 | Each route and worker check takes a step of the run relation; the manual route inserts without looking for a duplicate. |
| `AssuranceRuns.ScanIsExact` | src/zeroshield/assurance/revalidation.py:83-192 | On a table without duplicates a scan returns normally, makes pending exactly what was pending or fires, and adds a row exactly for each firing key that was not pending. |
| `AssuranceRuns.SecondScanIsIdle` | src/zeroshield/assurance/revalidation.py:65-80 | A second scan with the same inputs creates nothing. |
| `AssuranceRuns.AtMostOnePending` | src/zeroshield/assurance/repository.py:269-325 | Every run of scans, worker checks and decisions keeps at most one pending candidate per control and trigger, if nobody raises a duplicate by hand. |
| `AssuranceRuns.RaiseByHandKeepsIff` | src/zeroshield/api/routes/revalidation.py:95-111 | Raising a candidate by hand keeps that property if and only if the key has none pending. |
| `AssuranceRuns.RaisedTwice` | src/zeroshield/api/routes/revalidation.py:95-111 | Raised twice by hand, a key makes every scan in which it fires raise. |
| `AssuranceRuns.DecidedOnce` | src/zeroshield/api/routes/revalidation.py:133-165 | Over every run from an empty table a candidate is pending until the first decision about it, and approved or dismissed by that one for good. |
| `AssuranceRuns.RegressionIsFlagged` | src/zeroshield/worker/processor.py:97-121 | After a worker check a REGRESSION candidate is pending if and only if one was before, or the validation is out of tolerance and the check was not lost. |
| `RegressionMeaning.RegressesIff` | src/zeroshield/worker/processor.py:80-121 | For any times on the rows: the check compares the two newest validations of the version, ties going to the row recorded last, and they are out of tolerance exactly when the verdict got worse, the improvement fell by more than 0.10, or another rate worsened by more than 0.05. |
| `RegressionMeaning.CheckFlagsIff` | src/zeroshield/worker/processor.py:97-121 | A worker check leaves a REGRESSION candidate pending exactly when one was before, or it came to its second write and those two stand out of tolerance; the one row it may add is pending and proposes the run's experiment, and it adds none if one is pending. |
| `RegressionMeaning.CheckRecords` | src/zeroshield/worker/processor.py:80-98 | The row a check records carries each rate of the mitigation, the improvement, the overhead and the default verdict of the run's comparison, under its own name. |
| `AssuranceRuns.ToleranceIff` | src/zeroshield/worker/processor.py:80-121 | If no REGRESSION candidate was ever created for a control, the validations of a version are each within tolerance of the one before if and only if no check of an out-of-tolerance one was lost after recording it. |
| `AssuranceRuns.RegressionChainBound` | src/zeroshield/worker/processor.py:80-121 | If no REGRESSION candidate was ever created for a control, then: over any k+1 successive validations of one version the verdict never fell, improvement fell by at most 0.10k, and false positives, false negatives and parser reach rose, and acceptance fell, by at most 0.05k each, if and only if no check of an out-of-tolerance validation was lost after recording it. |
| `AssuranceRuns.UnnoticedRegression` | src/zeroshield/worker/processor.py:36-50 | Whatever the two measurements, a regression whose check is lost is followed by a complete check of the same measurement that raises nothing. |
| `Accounts.AuthService.Login` | src/zeroshield/auth/service.py:60-135 | Unknown or inactive user, lock, wrong password or success: the store afterwards and the outcome, with the lock set from the fifth failure and cleared by a success. |
| `Accounts.LoginIff` | src/zeroshield/auth/service.py:60-97 | In every run, told by the calls before it: a login is granted exactly when the password is right, the user is known and active, and there are not five wrong passwords since the last granted login with the last of them less than 900 seconds ago; wrong password, inactive, unknown and locked exactly in the remaining cases. |
| `Accounts.CountersAgree` | src/zeroshield/auth/service.py:120-135 | The stored counter is the number of wrong passwords compared since the last granted login, and from five on the lock is 900 seconds after the last of them. |
| `Accounts.UsersAgree` | src/zeroshield/auth/service.py:172-194 | A user is stored exactly when created, active exactly as last switched, and has exactly the role given last. |
| `Accounts.AuthService.RecordLoginFailure` | src/zeroshield/auth/repository.py:118-127 | One more failure, and the lock if one is given; nothing else changes. |
| `Accounts.AuthService.DeleteExpiredSessions` | src/zeroshield/auth/repository.py:174-189 | Exactly the sessions that expired by the cutoff go. |
| `Accounts.AuthService.GetUserForSession` | src/zeroshield/auth/service.py:145-156 | The user of an unexpired session of an active user; an expired session is deleted on the way. |
| `Accounts.AuthService.SetUserActive` | src/zeroshield/auth/service.py:185-194 | Switches one account and nothing else. |
| `Accounts.AuthService.SetUserRole` | src/zeroshield/auth/service.py:172-183 | Changes the role of one account and nothing else: neither its lock nor its sessions. |
| `Accounts.LockoutSpacing` | src/zeroshield/auth/service.py:60-135 | In every run without a successful login, wrong passwords compared from the fifth on are at least fifteen minutes apart. |
| `Accounts.LockoutRate` | src/zeroshield/auth/service.py:120-135 | In any span T at most 5 + T/15min wrong passwords are compared. |
| `Accounts.NoCheckWhileLocked` | src/zeroshield/auth/service.py:60-97 | While the lock of five or more failures holds, 900 seconds, no password is compared, right or wrong. |
| `Accounts.SessionTable` | src/zeroshield/auth/repository.py:131-189 | In every run the session table holds exactly the rows that a granted login issued and nothing ended since: no logout, nobody resolving the token after its expiry, no clean-up by a granted login after its expiry. |
| `Accounts.SessionValidityIsExact` | src/zeroshield/auth/service.py:98-156 | A token resolves to a user if and only if a login of that user with the right password, made while the account was active and not locked by the log of calls, issued it less than twelve hours (43200 seconds) ago, it was not logged out since, and the user is active now. |
| `LatexEscape.EscapeLatex` | src/zeroshield/exports/overleaf_exporter.py:32-35 | The ten in-place passes give one substitution per character. |
| `LatexEscape.PassesFuse` | src/zeroshield/exports/overleaf_exporter.py:18-35 | For every text the ten passes in order equal the single substitution, in which a backslash ends as `\textbackslash\{\}` because the brace passes run later. |
| `LatexEscape.PrefixFree` | src/zeroshield/exports/overleaf_exporter.py:18-29 | No code word is a prefix of another. |
| `LatexEscape.RoundTrip` | src/zeroshield/exports/overleaf_exporter.py:18-35 | Decoding an export gives the text back. |
| `LatexEscape.DecodeIsExact` | src/zeroshield/exports/overleaf_exporter.py:18-35 | Whatever decodes is exactly the export of what it decodes to. |
| `LatexEscape.EscapeIsInjective` | src/zeroshield/exports/overleaf_exporter.py:18-35 | Distinct texts export to distinct strings. |
| `LatexMeaning.ExportIsSet` | src/zeroshield/exports/overleaf_exporter.py:18-35 | For every text a reader of TeX's control words, control symbols and groups, written independently of the exporter, sets the export as the text with a pair of braces behind every backslash. |
| `LatexMeaning.ExportIsFaithfulIff` | src/zeroshield/exports/overleaf_exporter.py:18-35 | An export shows the text it was made from if and only if there is no backslash in it. |

## Left out

- CveMerge.Merge: does not model `references`, because the code compares parsed URL objects with plain strings there, and so makes no claim about them; nor the source record and products it also returns, which no theorem here reads.
- CveSync.SyncService.RunSync: does not model the validation candidates it scores and stores, the source records, products and vendor advisories, because they feed nothing the theorems speak of.
- CveMerge.MergeFields: does not model `references`, for the same reason.
- CveSync.SyncService.Consume: does not model the source records, products and vendor advisories it stores beside the record, because no theorem here reads them back; the revalidation scan takes advisories as given.
- CveSync.SyncService.Regenerate: does not model the validation candidate generated after the classification, because it only feeds the priority queue.
- CveIdempotence.SyncIsIdempotent: leaves `last_updated_at` out of what stays equal, because every merge restamps it.
- EvidenceSafety.TraceLanguage: does not cover the QUEUED event, because the API records it after publishing and its place among the others is not determined.
- EvidenceSafety.LoadLatestSucceeds: does not model the join of the two results case by case and the reload of the dataset, because these only shape what is shown.
- RunJobs.Worker.RunExperiment: does not model the metrics and verdict a run computes, which the metrics modules do; their bytes are inputs here.
- RunJobs.Worker.ProcessRunJob: does not model the audit log and the control validation it triggers after completion; the latter is `Assurance.AssuranceRepository.RecordAndCheck`.
- Studio.ExperimentStudio.SubmitVersionRun: does not model the job record and message it goes on to write, which `EvidenceSafety` models as a submission.
- Revalidation.Scan: does not model the text of `trigger_detail`, because no behaviour depends on it; the bounded listing of a domain and the ranking are parameters.
- Accounts.AuthService.GetUserForSession: does not model `last_used_at`, because nothing reads it.
- Accounts.AuthService.Login: does not model password hashing and the audit log; whether the password matched is an input.
- Studio.ExperimentStudio.CreateVersion: does not model how a draft is assembled from a domain pack, template and dataset; whether that succeeds is an input.
- LatexMeaning.ExportIsSet: does not model TeX's merging of spaces, line ends and paragraphs, because the exporter leaves them alone.
- Metrics.CalculateMetrics: computes over reals, so rounding of rates is not modelled.
- The web app, dashboard, command line and response mapping: presentation.
- Connectors, HTTP retry, RabbitMQ, MinIO and SQL: a repository is a set of maps and sequences, the queue a bag of messages, a feed a sequence.
- The AI analyst and its providers, the sandbox executor, Prometheus, tracing, logging: calls into code outside the repository.
- Hashing of evidence files and manifest integrity: artefacts are opaque bytes.
- Priority scoring, domain classification and similarity: short arithmetic, used here as parameters.
