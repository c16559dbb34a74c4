# Verified models of the AWS OpenTelemetry distribution

A Dafny model of the hardest logic of the AWS distribution of OpenTelemetry for Python and of its copy tool, with proofs
of what that logic keeps and what it loses. `dafny verify dfyconfig.toml` checks all of it.

Code that updates objects is modelled by classes whose methods are tied to step functions on values; the properties are
proved of those functions, over every input, every run or every reachable state.

- **Sampler** (`RateLimiter`, `SamplingRuleApplier`, `SamplingDecisions`, `Matcher`, `RuleCache`): a lazy token bucket, appliers
  that hand their statistics on when a target arrives, wildcards compiled to regular expressions, and a cache refreshed by
  two pollers.
- **Log batching** (`LogSizeEstimator`, `LogSizeContents`, `BatchLogProcessor`, `CloudWatchLogClient`, `LogBatchTimes`): a size
  scan over possibly cyclic values, a greedy splitter, and a client that batches within service limits while sends may fail.
- **Exponential histograms** (`ExpHistogram`): buckets turned into midpoints, with the error that brings, in the terms of
  the OpenTelemetry Metrics Data Model, section "ExponentialHistogram".
- **Generative-AI content** (`LloHandler`, `LloLanes`, `ClaudeStream`, `ClaudeBlocks`): moving content out of spans into events,
  and reassembling streamed messages.
- **Metric attributes** (`Delimiters`, `SpanProcessing`, `MetricAttributes`, `RemoteNames`, `RemoteResources`, `MetricReports`,
  `MetricSpanExporter`): a wide priority table, the escaping of composite identifiers, and the exporter that merges the
  result into spans.
- **Archive copy** (`ArchiveCopy`, `ArchiveRuns`): an explicit stack in place of a recursive tree copy.

`Wrappers`, `Sequences`, `Sorting`, `OrderedDict` and `Passes` are shared helpers.

## Where the code differs from what it says

- A negative reservoir quota admits every request while its target is live (`BoundHoldsExactlyForNonNegativeQuota`).
- Wildcards do not match newlines, so only `*` and patterns without wildcards are globs on all texts (`GlobOnAllTexts`).
- Rules that share a name lose counts in updates that change nothing (`SharedNamesLoseCounts`), exactly when a held rule
  other than the last of its name is kept (`UpdateConservesExactly`).
- An export that raises before the last request of a pop run also loses the one log popped beyond its request
  (`RunLosesOneLogExactly`, `TwoLogsLoseTheSecond`).
- A log event at or before the epoch passes for an empty batch, so the 24-hour limit holds exactly for clocks past 14 days
  (`ClockConditionIsExact`).
- A container that body and attributes share is measured where the body has it, so that content within the depth of the
  attributes can go uncounted: exactly what only such containers hold (`ScanExpandsExactly`, `SharedContentIsMissed`).
- Content is removed from spans that is never emitted: of two events of one name, or an event attribute that repeats a key,
  only the last is collected, and indices such as 1 and 01 collide. Everything is emitted exactly when there is neither
  (`SpanEmitsEverythingExactly`, `TwoUserMessagesLoseTheFirst`, `OneAndZeroOneShareAPlace`).
- Role attributes of a span are never collected, so the role lookup never finds them (`RolesAreDefaults`).
- A streamed message of another role than assistant raises at its first block stop, and a stop reason carries over to a
  following message that brings none (`OtherRoleRaisesIffItHasBlocks`, `NoContamination`). Content blocks of types other
  than text and tool use become empty blocks, and deltas of other types are dropped (`TypedBlocksAreLost`).
- A database identifier does not tell a name and address from an address and port (`SameConnectionId`), though escaping is
  there to keep parts apart.
- A Bedrock data source without a knowledge base id makes generation raise (`GenerateFailsExactly`).
- The exporter's comment calls service attributes a subset of dependency attributes; in Lambda they are not
  (`ServiceWithinDependency`).
- The rule that leaves out consumers below consumers compares text attributes with enumerations: it never applies exactly
  when one of the enumerations equals no text (`ConsumersNeverLeftOutExactly`).
- Copying a directory to a fresh place inside itself never completes, and only that (`CompletesExactly`).
- An empty directory of the source that meets a file at the destination is left out without an error
  (`DirectoriesArriveExactly`, `OnlyEmptyDirectoriesAreLost`).
- A copy writes through links that lie at the destination: one file changes something outside it exactly where it leads to
  another place that can be written (`FileStaysInsideExactly`). Without links there nothing outside ever changes
  (`RunsStayInside`).
- The lazy bucket notices some clocks that step back (`ClocksForCapacityExactly`, `ClocksForRealCostsExactly`).

## Model

| member | source | states |
|---|---|---|
| `RateLimiter.RateLimiter.TrySpend` | aws-opentelemetry-distro/src/amazon/opentelemetry/distro/sampler/_rate_limiter.py:22-40 | One spend: the new wallet and the answer are those of the floor form of the bucket, whatever the clock reads |
| `RateLimiter.LazyRefinesEager` | aws-opentelemetry-distro/src/amazon/opentelemetry/distro/sampler/_rate_limiter.py:17-40 | On a clock that never goes back, a new limiter answers every sequence of calls exactly as a bucket that refills and caps on each call |
| `RateLimiter.ClocksForCapacityExactly` | aws-opentelemetry-distro/src/amazon/opentelemetry/distro/sampler/_rate_limiter.py:17-40 | For a given capacity, over all costs and quotas, the lazy bucket answers as the eager one if and only if readings step back at most below the first one, and that one is no later than creation plus capacity |
| `RateLimiter.ClocksForRealCostsExactly` | aws-opentelemetry-distro/src/amazon/opentelemetry/distro/sampler/_rate_limiter.py:17-40 | For positive quotas and costs that are not negative: if and only if every reading before a smaller one that is not before creation is no later than creation plus capacity |
| `RateLimiter.ClocksThatRefineExactly` | aws-opentelemetry-distro/src/amazon/opentelemetry/distro/sampler/_rate_limiter.py:17-40 | Over all capacities: if and only if the readings never decrease among themselves, wherever the creation lies |
| `RateLimiter.ClockGoingBackSeparatesThem` | aws-opentelemetry-distro/src/amazon/opentelemetry/distro/sampler/_rate_limiter.py:22-40 | A concrete pair of calls, the second reading earlier, on which the buckets differ |
| `RateLimiter.GrantsFitAboveTheFloor` | aws-opentelemetry-distro/src/amazon/opentelemetry/distro/sampler/_rate_limiter.py:17-40 | From any state, on any clock, the grants of a run cost at most the last grant's reading minus the floor |
| `RateLimiter.AnyClockSpendingBound` | aws-opentelemetry-distro/src/amazon/opentelemetry/distro/sampler/_rate_limiter.py:17-40 | From any state, on any clock, the grants of a run cost at most last reading minus first reading plus the maximum balance |
| `SamplingRuleApplier.Applier.constructor` | aws-opentelemetry-distro/src/amazon/opentelemetry/distro/sampler/_sampling_rule_applier.py:44-53 | Without a target an applier borrows one request a second if the rule has a reservoir, until the end of time, from an empty wallet |
| `SamplingRuleApplier.Applier.ForTarget` | aws-opentelemetry-distro/src/amazon/opentelemetry/distro/sampler/_sampling_rule_applier.py:54-63 | With a target: its quota and rate, expiry now if no TTL is given, an empty wallet, and the document handed on |
| `SamplingRuleApplier.Applier.ShouldSample` | aws-opentelemetry-distro/src/amazon/opentelemetry/distro/sampler/_sampling_rule_applier.py:65-100 | A request takes from the reservoir unless expired, else asks the ratio sampler, and counts request, borrow and sample |
| `SamplingRuleApplier.Applier.GetThenResetStatistics` | aws-opentelemetry-distro/src/amazon/opentelemetry/distro/sampler/_sampling_rule_applier.py:102-107 | Reports the counts so far, starts a fresh document, and leaves the old document as it was |
| `SamplingRuleApplier.Applier.WithTarget` | aws-opentelemetry-distro/src/amazon/opentelemetry/distro/sampler/_sampling_rule_applier.py:109-111 | A new applier that shares the document and nothing else |
| `SamplingRuleApplier.StatisticsDocument.Snapshot` | aws-opentelemetry-distro/src/amazon/opentelemetry/distro/sampler/_sampling_statistics_document.py:19-27 | A report holds the document's rule name and counts at the reading |
| `SamplingRuleApplier.ReservoirBound` | aws-opentelemetry-distro/src/amazon/opentelemetry/distro/sampler/_sampling_rule_applier.py:44-111 | Over every run of one rule the reservoir admits at most the sum, over target periods, of quota times period length up to expiry |
| `SamplingRuleApplier.ReachableStatesAreSound` | aws-opentelemetry-distro/src/amazon/opentelemetry/distro/sampler/_sampling_rule_applier.py:44-111 | Every state a run reaches is sound at its latest reading, so later bounds start from it |
| `SamplingRuleApplier.ReservoirBurstBound` | aws-opentelemetry-distro/src/amazon/opentelemetry/distro/sampler/_sampling_rule_applier.py:44-111 | From any sound state, a run admits at most one second of the current quota beyond what its periods earn |
| `SamplingRuleApplier.ReachableBurstBound` | aws-opentelemetry-distro/src/amazon/opentelemetry/distro/sampler/_sampling_rule_applier.py:44-111 | The same from any point of any run of a new rule, whatever came before |
| `SamplingRuleApplier.RequestUsesTokens` | aws-opentelemetry-distro/src/amazon/opentelemetry/distro/sampler/_sampling_rule_applier.py:65-100 | One request costs the reservoir one token if admitted, and waiting earns no more than the period's quota |
| `SamplingRuleApplier.BoundHoldsExactlyForNonNegativeQuota` | aws-opentelemetry-distro/src/amazon/opentelemetry/distro/sampler/_sampling_rule_applier.py:55-57 | For a new live reservoir the bound holds of all runs if and only if the quota is not negative |
| `SamplingRuleApplier.NegativeQuotaAdmitsAll` | aws-opentelemetry-distro/src/amazon/opentelemetry/distro/sampler/_rate_limiter.py:22-40 | A negative quota admits every request while its target is live |
| `SamplingDecisions.UntargetedDecides` | aws-opentelemetry-distro/src/amazon/opentelemetry/distro/sampler/_sampling_rule_applier.py:44-100 | Over every ordered run a rule without target samples what a bucket of one request a second lets through, if it has a reservoir, or the sampler at the rule's rate, and counts exactly those as borrowed and sampled |
| `SamplingDecisions.TargetDecides` | aws-opentelemetry-distro/src/amazon/opentelemetry/distro/sampler/_sampling_rule_applier.py:54-111 | Under a target it samples what a bucket of the target's quota lets through while the target lives, or the sampler at the target's rate; nothing is borrowed and the counts go on |
| `SamplingDecisions.WaitingAdmitsExactly` | aws-opentelemetry-distro/src/amazon/opentelemetry/distro/sampler/_sampling_rule_applier.py:54-100 | The reservoir of a new target admits a first request if and only if the target lives, its quota is not 0, and 1/quota of a second has passed |
| `Matcher.ToRegexPattern` | aws-opentelemetry-distro/src/amazon/opentelemetry/distro/sampler/_matcher.py:32-50 | Escaping whole literal runs emits what escaping and translating character by character emits |
| `Matcher.EmittedRegexReadsBack` | aws-opentelemetry-distro/src/amazon/opentelemetry/distro/sampler/_matcher.py:32-50 | For every pattern the emitted text is a well-formed regex that reads back as one token per pattern character |
| `Matcher.GlobMeansFittingPieces` | aws-opentelemetry-distro/src/amazon/opentelemetry/distro/sampler/_matcher.py:18-50 | The direct matcher accepts exactly the texts that cut into one fitting piece per pattern character |
| `Matcher.LineGlobIsGlob` | aws-opentelemetry-distro/src/amazon/opentelemetry/distro/sampler/_matcher.py:18-50 | On texts without newlines, fully matching the tokens is the direct matcher |
| `Matcher.WildCardMatch` | aws-opentelemetry-distro/src/amazon/opentelemetry/distro/sampler/_matcher.py:19-30 | Answers by the compiled and re-read regex where a wildcard occurs, by equality otherwise, and true for `*` |
| `Matcher.MatchesIsGlob` | aws-opentelemetry-distro/src/amazon/opentelemetry/distro/sampler/_matcher.py:19-50 | On every text without a newline, the answer is the direct matcher's |
| `Matcher.GlobOnAllTexts` | aws-opentelemetry-distro/src/amazon/opentelemetry/distro/sampler/_matcher.py:19-50 | Exactly the patterns that agree with the direct matcher on all texts: `*` and those without wildcards |
| `Matcher.MatchesIsMeeting` | aws-opentelemetry-distro/src/amazon/opentelemetry/distro/sampler/_matcher.py:19-50 | A value, or the lack of one, that holds no newline matches exactly if it is globbed by the pattern; without a value only `*` matches |
| `Matcher.AttributesMatchIsMeeting` | aws-opentelemetry-distro/src/amazon/opentelemetry/distro/sampler/_matcher.py:53-67 | Attributes match exactly if each attribute pattern of the rule is met by the attribute of that key |
| `Matcher.AttributeMatch` | aws-opentelemetry-distro/src/amazon/opentelemetry/distro/sampler/_matcher.py:53-67 | Counting matches decides whether every attribute pattern of the rule is met by the span |
| `RuleCache.RuleLessOrders` | aws-opentelemetry-distro/src/amazon/opentelemetry/distro/sampler/_sampling_rule.py:39-44 | The rule order is a strict weak order by priority, then name |
| `RuleCache.OneFieldMatchesExactly` | aws-opentelemetry-distro/src/amazon/opentelemetry/distro/sampler/_sampling_rule_applier.py:147-157 | For each of URL path, method, host, service name, service type and ARN: a rule that asks for it alone matches a request without newlines if and only if that fact of the request meets the pattern |
| `RuleCache.AttributesAloneMatchExactly` | aws-opentelemetry-distro/src/amazon/opentelemetry/distro/sampler/_sampling_rule_applier.py:147-157 | A rule that asks for attributes alone matches if and only if the span's attributes meet them |
| `RuleCache.MatchesFieldByField` | aws-opentelemetry-distro/src/amazon/opentelemetry/distro/sampler/_sampling_rule_applier.py:147-157 | A rule matches if and only if each of its seven one-field rules does |
| `RuleCache.LeastIntervalIsLeast` | aws-opentelemetry-distro/src/amazon/opentelemetry/distro/sampler/_rule_cache.py:100-125 | The interval is one of those that targets of held rules give, and at most each of them; there is none exactly if none gives one |
| `RuleCache.TargetForIsLast` | aws-opentelemetry-distro/src/amazon/opentelemetry/distro/sampler/_rule_cache.py:95-113 | Of several targets of one name the last counts |
| `Sorting.StringLessIsLexicographic` | aws-opentelemetry-distro/src/amazon/opentelemetry/distro/sampler/_sampling_rule.py:39-44 | Names compare by the first character in which they differ, or by length if one begins the other |
| `RuleCache.CacheHoldsLastUpdate` | aws-opentelemetry-distro/src/amazon/opentelemetry/distro/sampler/_rule_cache.py:66-93 | In every reachable state the cache holds exactly the rules of the last update that have a name and version 1, sorted |
| `RuleCache.RoutesToLeastMatch` | aws-opentelemetry-distro/src/amazon/opentelemetry/distro/sampler/_rule_cache.py:47-64 | In every reachable state a matched request goes to the matching rule of least priority number, and of those of one number to the one of least name |
| `RuleCache.OnlyRuleUpdatesReroute` | aws-opentelemetry-distro/src/amazon/opentelemetry/distro/sampler/_rule_cache.py:95-132 | Targets, reports and requests never change which rule is chosen |
| `RuleCache.UpdateConservesExactly` | aws-opentelemetry-distro/src/amazon/opentelemetry/distro/sampler/_rule_cache.py:66-93 | For held rules and an update to different rules: the counts of a name are conserved for all counts if and only if of the held rules of that name none but the last is kept |
| `RuleCache.OperationConserves` | aws-opentelemetry-distro/src/amazon/opentelemetry/distro/sampler/_rule_cache.py:66-132 | Each operation, an update under that condition: routed plus pending equals reported plus discarded plus still pending, per rule name |
| `RuleCache.CountsConserved` | aws-opentelemetry-distro/src/amazon/opentelemetry/distro/sampler/_rule_cache.py:66-132 | The same over every run all of whose updates meet the condition |
| `RuleCache.CountsConservedWithDistinctNames` | aws-opentelemetry-distro/src/amazon/opentelemetry/distro/sampler/_rule_cache.py:66-132 | In particular over every run whose updates name rules once |
| `RuleCache.UnchangedRulesKeepEverything` | aws-opentelemetry-distro/src/amazon/opentelemetry/distro/sampler/_rule_cache.py:84-93 | An update discards nothing of an unchanged rule and keeps its applier's state |
| `RuleCache.SharedNamesLoseCounts` | aws-opentelemetry-distro/src/amazon/opentelemetry/distro/sampler/_rule_cache.py:80-91 | The condition can fail: of two rules sharing a name the first loses its count in an update that changes nothing |
| `RuleCache.ReportsAreOrdered` | aws-opentelemetry-distro/src/amazon/opentelemetry/distro/sampler/_sampling_rule_applier.py:85-98 | In every reachable state BorrowCount <= SampleCount <= RequestCount |
| `RuleCache.RuleCache.ShouldSample` | aws-opentelemetry-distro/src/amazon/opentelemetry/distro/sampler/_rule_cache.py:37-64 | A request without newlines goes to the first rule all of whose patterns its own facts meet; that applier decides and counts, as does whatever shares its limiter or document; without a match the fallback decides |
| `RuleCache.RuleCache.UpdateSamplingRules` | aws-opentelemetry-distro/src/amazon/opentelemetry/distro/sampler/_rule_cache.py:66-93 | The new state of the cache, and that the very applier object of each unchanged rule is kept |
| `RuleCache.NewAppliers` | aws-opentelemetry-distro/src/amazon/opentelemetry/distro/sampler/_rule_cache.py:68-76 | New appliers for exactly the supported rules, in order, sharing nothing |
| `RuleCache.KeptAppliersStayApart` | aws-opentelemetry-distro/src/amazon/opentelemetry/distro/sampler/_rule_cache.py:84-92 | Kept and new appliers of different rules share no limiter and no document, even where names are shared |
| `RuleCache.RuleCache.UpdateSamplingTargets` | aws-opentelemetry-distro/src/amazon/opentelemetry/distro/sampler/_rule_cache.py:95-125 | Each applier with a target is replaced, keeping its counts; the interval is the least one, or 10; when to refresh rules |
| `RuleCache.RuleCache.GetAllStatistics` | aws-opentelemetry-distro/src/amazon/opentelemetry/distro/sampler/_rule_cache.py:127-132 | Reports every applier's counts in order and resets them |
| `LogSizeEstimator.EstimateUtf8Size` | aws-opentelemetry-distro/src/amazon/opentelemetry/distro/exporter/otlp/aws/logs/_aws_cw_otlp_batch_log_record_processor.py:237-249 | One byte for each ASCII character and four for each other |
| `LogSizeEstimator.Utf8EstimateIsSafe` | aws-opentelemetry-distro/src/amazon/opentelemetry/distro/exporter/otlp/aws/logs/_aws_cw_otlp_batch_log_record_processor.py:237-249 | The estimate is at least the UTF-8 length, at most twice it, and exact on ASCII |
| `LogSizeEstimator.EstimateLogSize` | aws-opentelemetry-distro/src/amazon/opentelemetry/distro/exporter/otlp/aws/logs/_aws_cw_otlp_batch_log_record_processor.py:135-235 | On every finite heap, shared or cyclic, the scan ends with the full scan's size below the limit and with at least the limit above it |
| `LogSizeEstimator.ScanExpandsOnce` | aws-opentelemetry-distro/src/amazon/opentelemetry/distro/exporter/otlp/aws/logs/_aws_cw_otlp_batch_log_record_processor.py:183-231 | No container is expanded twice |
| `LogSizeEstimator.ScanIsRecursiveSize` | aws-opentelemetry-distro/src/amazon/opentelemetry/distro/exporter/otlp/aws/logs/_aws_cw_otlp_batch_log_record_processor.py:181-235 | The scan counts at most 2000 plus the recursive depth-limited size, and exactly that when no container occurs twice |
| `LogSizeEstimator.RecursiveSizeIsSum` | aws-opentelemetry-distro/src/amazon/opentelemetry/distro/exporter/otlp/aws/logs/_aws_cw_otlp_batch_log_record_processor.py:175-181 | The recursive size is that of the body at depth 0 plus that of the attributes at depth -1 |
| `LogSizeContents.Utf8EstimateCounts` | aws-opentelemetry-distro/src/amazon/opentelemetry/distro/exporter/otlp/aws/logs/_aws_cw_otlp_batch_log_record_processor.py:237-249 | One byte for each character of a text and three more for each that is not ASCII |
| `LogSizeContents.ScanCountsContents` | aws-opentelemetry-distro/src/amazon/opentelemetry/distro/exporter/otlp/aws/logs/_aws_cw_otlp_batch_log_record_processor.py:175-235 | On every heap the full scan counts 2000, what body and attributes are by themselves, and for each container it expands the lengths of its keys and the texts and bytes in it |
| `LogSizeContents.ScanExpandsExactly` | aws-opentelemetry-distro/src/amazon/opentelemetry/distro/exporter/otlp/aws/logs/_aws_cw_otlp_batch_log_record_processor.py:175-235 | On every heap the containers expanded are exactly those at most `depth` steps below body or attributes, and of those one step further below the attributes the ones held by a container that the body does not reach within the depth |
| `LogSizeContents.ScanExpandsAttributes` | aws-opentelemetry-distro/src/amazon/opentelemetry/distro/exporter/otlp/aws/logs/_aws_cw_otlp_batch_log_record_processor.py:175-235 | With a body that is no container: exactly those at most `depth + 1` steps below the attributes |
| `LogSizeContents.SharedContentIsMissed` | aws-opentelemetry-distro/src/amazon/opentelemetry/distro/exporter/otlp/aws/logs/_aws_cw_otlp_batch_log_record_processor.py:175-235 | Body and attributes that share a container: what it holds lies within the depth of the attributes and is not counted |
| `BatchLogProcessor.SplitIsSplit` | aws-opentelemetry-distro/src/amazon/opentelemetry/distro/exporter/otlp/aws/logs/_aws_cw_otlp_batch_log_record_processor.py:117-130 | The requests concatenate to the popped logs in order, are not empty, and exceed 1048576 only as a single log |
| `BatchLogProcessor.SplitIsShortest` | aws-opentelemetry-distro/src/amazon/opentelemetry/distro/exporter/otlp/aws/logs/_aws_cw_otlp_batch_log_record_processor.py:117-130 | No other split into consecutive groups that meets the rule has fewer groups |
| `BatchLogProcessor.EarlyExitInvisible` | aws-opentelemetry-distro/src/amazon/opentelemetry/distro/exporter/otlp/aws/logs/_aws_cw_otlp_batch_log_record_processor.py:117-130 | Estimates with and without early exit split every sequence of logs alike |
| `BatchLogProcessor.Processor.Gather` | aws-opentelemetry-distro/src/amazon/opentelemetry/distro/exporter/otlp/aws/logs/_aws_cw_otlp_batch_log_record_processor.py:118-127 | A popped log joins the request, or cuts it off and exports it first |
| `BatchLogProcessor.Processor.PopRun` | aws-opentelemetry-distro/src/amazon/opentelemetry/distro/exporter/otlp/aws/logs/_aws_cw_otlp_batch_log_record_processor.py:112-132 | The calls, the answer and the queue of one pop run, from which calls the exporter raises on: the requests of the split, up to the first that raises, which also loses the log popped beyond it |
| `BatchLogProcessor.RunLosesOneLogExactly` | aws-opentelemetry-distro/src/amazon/opentelemetry/distro/exporter/otlp/aws/logs/_aws_cw_otlp_batch_log_record_processor.py:112-132 | A run pops exactly one log that it never exports if and only if a call before that of its last request raises; it is the log the next request was to start with |
| `BatchLogProcessor.CutShortExactly` | aws-opentelemetry-distro/src/amazon/opentelemetry/distro/exporter/otlp/aws/logs/_aws_cw_otlp_batch_log_record_processor.py:112-132 | So each run of an export is cut short exactly by the exporter raising before the last request |
| `BatchLogProcessor.TwoLogsLoseTheSecond` | aws-opentelemetry-distro/src/amazon/opentelemetry/distro/exporter/otlp/aws/logs/_aws_cw_otlp_batch_log_record_processor.py:117-132 | The input: two logs that do not fit together and a first call that raises leave nothing, though one log was exported |
| `BatchLogProcessor.Processor.Export` | aws-opentelemetry-distro/src/amazon/opentelemetry/distro/exporter/otlp/aws/logs/_aws_cw_otlp_batch_log_record_processor.py:105-133 | Over the whole loop: every call respects the limit, no log is exported twice, the queue is exported plus left plus one log for each run cut short, and if none raises nothing is reordered |
| `ExpHistogram.ConvertPositive` | aws-opentelemetry-distro/src/amazon/opentelemetry/distro/exporter/aws/metrics/base_emf_exporter.py:412-436 | Running boundaries give each nonempty bucket the midpoint of its two powers of the base |
| `ExpHistogram.ConvertNegative` | aws-opentelemetry-distro/src/amazon/opentelemetry/distro/exporter/aws/metrics/base_emf_exporter.py:444-468 | The same, mirrored |
| `ExpHistogram.ConvertExpHistogram` | aws-opentelemetry-distro/src/amazon/opentelemetry/distro/exporter/aws/metrics/base_emf_exporter.py:403-478 | Positive entries, the zero entry, then negative entries |
| `ExpHistogram.MidpointIsClose` | aws-opentelemetry-distro/src/amazon/opentelemetry/distro/exporter/aws/metrics/base_emf_exporter.py:423-431 | A midpoint differs from anything in its bucket by at most (base-1)/2 times its absolute value |
| `ExpHistogram.ConversionError` | aws-opentelemetry-distro/src/amazon/opentelemetry/distro/exporter/aws/metrics/base_emf_exporter.py:403-468 | Values times counts differ from the true sum by at most (base-1)/2 times the summed absolute observations; counts sum to their number |
| `ExpHistogram.SlackScalesSumAbs` | aws-opentelemetry-distro/src/amazon/opentelemetry/distro/exporter/aws/metrics/base_emf_exporter.py:403-468 | The tolerance summed observation by observation is (base-1)/2 times the sum of absolute values |
| `ExpHistogram.ListError` | aws-opentelemetry-distro/src/amazon/opentelemetry/distro/exporter/aws/metrics/base_emf_exporter.py:371-478 | Over any list of data points, each with its own base, the errors at worst add up |
| `CloudWatchLogClient.Client.ValidateLogEvent` | aws-opentelemetry-distro/src/amazon/opentelemetry/distro/exporter/aws/metrics/_cloudwatch_log_client.py:147-197 | Which events are accepted, and what is left of the event: cut and marked if oversized, even when its time then rejects it |
| `CloudWatchLogClient.LogEventBatch.AddEvent` | aws-opentelemetry-distro/src/amazon/opentelemetry/distro/exporter/aws/metrics/_cloudwatch_log_client.py:35-51 | The batch with the event's size and timestamp taken in |
| `CloudWatchLogClient.Client.SendLogBatch` | aws-opentelemetry-distro/src/amazon/opentelemetry/distro/exporter/aws/metrics/_cloudwatch_log_client.py:262-329 | Sorts and puts the batch, a second time if resources had to be created; which puts were made and whether it raised |
| `CloudWatchLogClient.Client.SendLogEvent` | aws-opentelemetry-distro/src/amazon/opentelemetry/distro/exporter/aws/metrics/_cloudwatch_log_client.py:331-370 | The pending batch and requests after one event, for every answer of the service |
| `CloudWatchLogClient.Client.FlushPendingEvents` | aws-opentelemetry-distro/src/amazon/opentelemetry/distro/exporter/aws/metrics/_cloudwatch_log_client.py:372-384 | The pending batch is sent, and replaced only if that succeeds |
| `CloudWatchLogClient.RequestsWithinLimits` | aws-opentelemetry-distro/src/amazon/opentelemetry/distro/exporter/aws/metrics/_cloudwatch_log_client.py:199-366 | From the first reading past 14 days on, every request has 1 to 10000 events, sorted, within a day, each within 262144, with a total equal to the tracked one and within 1048576 |
| `CloudWatchLogClient.EarlyClockSpansTwoWeeks` | aws-opentelemetry-distro/src/amazon/opentelemetry/distro/exporter/aws/metrics/_cloudwatch_log_client.py:224-251 | A timestamp of 0 or less passes for no bound: before that reading a request can span 14 days |
| `CloudWatchLogClient.ClockConditionIsExact` | aws-opentelemetry-distro/src/amazon/opentelemetry/distro/exporter/aws/metrics/_cloudwatch_log_client.py:224-251 | All runs from a reading on keep the day limit if and only if the reading is past 14 days |
| `CloudWatchLogClient.EqualTimesKeepOrder` | aws-opentelemetry-distro/src/amazon/opentelemetry/distro/exporter/aws/metrics/_cloudwatch_log_client.py:253-260 | Events of equal timestamps keep the order in which they were added |
| `CloudWatchLogClient.SentDeliversAllOrNothing` | aws-opentelemetry-distro/src/amazon/opentelemetry/distro/exporter/aws/metrics/_cloudwatch_log_client.py:262-329 | A sending delivers the whole batch once or nothing of it |
| `CloudWatchLogClient.EventsConserved` | aws-opentelemetry-distro/src/amazon/opentelemetry/distro/exporter/aws/metrics/_cloudwatch_log_client.py:262-384 | Under any pattern of answers, accepted events are exactly the delivered and the pending ones, as multisets |
| `LogBatchTimes.SendsFirstExactly` | aws-opentelemetry-distro/src/amazon/opentelemetry/distro/exporter/aws/metrics/_cloudwatch_log_client.py:331-370 | In every reachable state past 14 days an event in time is put behind a request of the pending events if and only if these are 10000, or exceed 1048576 with it, or one lies more than a day from it, or their batch is 60000 ms old; and what is pending afterwards |
| `LogBatchTimes.FirstEventIsTaken` | aws-opentelemetry-distro/src/amazon/opentelemetry/distro/exporter/aws/metrics/_cloudwatch_log_client.py:331-370 | With nothing pending an event in time is accepted and nothing is sent |
| `LogBatchTimes.StaleBatchIsNeverJoined` | aws-opentelemetry-distro/src/amazon/opentelemetry/distro/exporter/aws/metrics/_cloudwatch_log_client.py:246-249 | An accepted event never joins events of a batch begun 60000 ms before or earlier: these are delivered first |
| `LogBatchTimes.BatchWasBegun` | aws-opentelemetry-distro/src/amazon/opentelemetry/distro/exporter/aws/metrics/_cloudwatch_log_client.py:199-206 | The age of a pending batch counts from the reading of the call that began it |
| `LogBatchTimes.TimelyExactly` | aws-opentelemetry-distro/src/amazon/opentelemetry/distro/exporter/aws/metrics/_cloudwatch_log_client.py:180-195 | In time is from 14 days before to two hours after the reading |
| `LogBatchTimes.TruncatedExactly` | aws-opentelemetry-distro/src/amazon/opentelemetry/distro/exporter/aws/metrics/_cloudwatch_log_client.py:167-178 | An event within 262144 stays as it is; of another the start is kept and marked, filling the limit exactly |
| `Sorting.SortSorts` | aws-opentelemetry-distro/src/amazon/opentelemetry/distro/exporter/aws/metrics/_cloudwatch_log_client.py:253-260 | Sorting orders by any strict weak order |
| `Sorting.SortIsStable` | aws-opentelemetry-distro/src/amazon/opentelemetry/distro/exporter/aws/metrics/_cloudwatch_log_client.py:253-260 | Sorting keeps the order of elements that no comparison separates |
| `ArchiveRuns.CopyArchive` | tools/cp-utility/src/main.rs:113-140 | How the copy goes over any number of turns. Apart from the source and without links it fails exactly if a node was blocked beforehand, and otherwise ends with the source laid over the destination, whatever that held. To a fresh destination it ends as the source tree, links verbatim, without special files, or inside the source does not end; without links nothing outside the destination changes |
| `ArchiveRuns.CompletedRunOverlays` | tools/cp-utility/src/main.rs:113-140 | At every moment each place below the destination is as it was or as it will be; a completed copy has every file and link of the source, and what the destination held where the source has nothing |
| `ArchiveRuns.FailingRunIsBlocked` | tools/cp-utility/src/main.rs:113-140 | A copy fails only where the file system blocked a node beforehand: a link whose place is taken, a file against something else, or a place in no directory |
| `ArchiveRuns.DirectoriesArriveExactly` | tools/cp-utility/src/main.rs:120-134 | A directory of the source is a directory at the destination if and only if nothing else was in its place |
| `ArchiveRuns.OnlyEmptyDirectoriesAreLost` | tools/cp-utility/src/main.rs:120-137 | Where something else was in its place, a directory holds nothing to be copied or the copy is blocked |
| `ArchiveRuns.FileLandsWhereDestinationLeads` | tools/cp-utility/src/main.rs:135-137 | Copying one file writes its content to the place where the destination leads, and changes nothing else |
| `ArchiveRuns.RunsStayInside` | tools/cp-utility/src/main.rs:113-140 | Without links on the way to, at or below the destination no run changes anything outside it, in whatever order entries are listed |
| `ArchiveRuns.FileStaysInsideExactly` | tools/cp-utility/src/main.rs:135-137 | With links it may: copying one file changes something outside the destination if and only if the destination leads to a place outside it that can be written and holds something else |
| `ArchiveRuns.RunsAreBounded` | tools/cp-utility/src/main.rs:113-140 | Without links there, and unless the destination is inside the source, a run takes at most one turn for each place below the source |
| `ArchiveRuns.FreshRunGoesOn` | tools/cp-utility/src/main.rs:113-140 | A run to a fresh destination never fails: it goes on until its stack is empty, and then, outside the source, the destination is a copy |
| `ArchiveRuns.CompletesExactly` | tools/cp-utility/src/main.rs:113-140 | A copy to a fresh destination can be completed if and only if the destination is not strictly inside the source |
| `ArchiveCopy.TakeTurn` | tools/cp-utility/src/main.rs:116-138 | One turn of the loop: what is made, and the directory's entries, read after making, on top of the stack |
| `ArchiveCopy.TurnIsProgress` | tools/cp-utility/src/main.rs:116-138 | Where no links are met, a turn leaves fewer places to visit, unless the destination is inside the source |
| `ArchiveRuns.CopyIntoItselfNeverCompletes` | tools/cp-utility/src/main.rs:113-140 | A copy to a fresh destination inside the source always has something left on its stack, after however many turns and in whatever order |
| `ArchiveRuns.RunsOfEveryLength` | tools/cp-utility/src/main.rs:113-140 | Runs to a fresh destination exist at every length, up to the one that empties the stack |
| `ArchiveCopy.Visit` | tools/cp-utility/src/main.rs:117-137 | The calls made for one node, through whatever links lie on the way, and when its entries are pushed |
| `ArchiveCopy.TurnIsPlain` | tools/cp-utility/src/main.rs:116-138 | Where no links are met, a turn of the loop acts on the named paths themselves |
| `ArchiveCopy.PushEntries` | tools/cp-utility/src/main.rs:124-134 | Every entry of a directory is pushed once, with its paths on both sides |
| `ArchiveRuns.FreshNeverFails` | tools/cp-utility/src/main.rs:117-137 | At a fresh destination each call finds its place free and its directory made, wherever the destination lies |
| `ArchiveCopy.MadeExactly` | tools/cp-utility/src/main.rs:117-137 | While a copy goes on, a node's calls fail if and only if it was blocked beforehand, and otherwise leave its place as it should be |
| `ArchiveCopy.TurnOverlays` | tools/cp-utility/src/main.rs:116-138 | A turn brings one more place of the source to the destination and leaves what is pending as it was |
| `ArchiveRuns.CopyStaysWellFormed` | tools/cp-utility/src/main.rs:113-140 | Afterwards every path still lies in a directory |
| `LloHandler.Handler.ProcessSpans` | aws-opentelemetry-distro/src/amazon/opentelemetry/distro/llo_handler.py:345-391 | Every span is cleaned in place and emits once, even if it comes twice in the list |
| `LloHandler.Handler.EmitLloAttributes` | aws-opentelemetry-distro/src/amazon/opentelemetry/distro/llo_handler.py:469-544 | Appends the grouped messages of the collected attributes, if there are any |
| `LloHandler.CollectLloAttributesFromSpan` | aws-opentelemetry-distro/src/amazon/opentelemetry/distro/llo_handler.py:292-325 | Collects LLO attributes of span and events, and whole events with LLO names; later entries of a key win |
| `LloHandler.CollectAllLloMessages` | aws-opentelemetry-distro/src/amazon/opentelemetry/distro/llo_handler.py:225-255 | Direct messages in order, then indexed ones |
| `LloHandler.CollectIndexedMessages` | aws-opentelemetry-distro/src/amazon/opentelemetry/distro/llo_handler.py:257-290 | Indexed messages by pattern and index, sorted |
| `LloHandler.GroupMessagesByType` | aws-opentelemetry-distro/src/amazon/opentelemetry/distro/llo_handler.py:438-467 | The two lists of the grouping |
| `LloHandler.FilterAttributes` | aws-opentelemetry-distro/src/amazon/opentelemetry/distro/llo_handler.py:546-577 | What stays of attributes |
| `LloHandler.FilterSpanEvents` | aws-opentelemetry-distro/src/amazon/opentelemetry/distro/llo_handler.py:393-436 | What stays of events |
| `LloHandler.CleaningCleans` | aws-opentelemetry-distro/src/amazon/opentelemetry/distro/llo_handler.py:345-436 | Afterwards no LLO key or event name is left; a clean span is unchanged, so a second cleaning changes nothing |
| `LloHandler.KeptKeepsTheRest` | aws-opentelemetry-distro/src/amazon/opentelemetry/distro/llo_handler.py:546-577 | Exactly the entries with other keys stay, each as often as before |
| `LloHandler.KeptInOrder` | aws-opentelemetry-distro/src/amazon/opentelemetry/distro/llo_handler.py:546-577 | Attributes stay in order |
| `LloHandler.KeptEventsInOrder` | aws-opentelemetry-distro/src/amazon/opentelemetry/distro/llo_handler.py:393-436 | Events stay in order |
| `LloHandler.CollectedIsLlo` | aws-opentelemetry-distro/src/amazon/opentelemetry/distro/llo_handler.py:292-325 | Only LLO keys are collected, each once, and none exactly from clean spans |
| `LloHandler.LastEntryIsCollected` | aws-opentelemetry-distro/src/amazon/opentelemetry/distro/llo_handler.py:292-325 | Of the LLO entries of a span that share a key, the last is the one collected |
| `LloHandler.CollectedWithoutLossExactly` | aws-opentelemetry-distro/src/amazon/opentelemetry/distro/llo_handler.py:292-325 | A span's LLO entries are collected without loss if and only if no two share a key |
| `LloHandler.SameNameLosesTheFirst` | aws-opentelemetry-distro/src/amazon/opentelemetry/distro/llo_handler.py:292-325 | Of two events of one LLO name both are removed and only the second is collected |
| `LloHandler.TwoUserMessagesLoseTheFirst` | aws-opentelemetry-distro/src/amazon/opentelemetry/distro/llo_handler.py:292-325 | The input: two `gen_ai.user.message` events in one span |
| `LloHandler.KeptAndLloPartition` | aws-opentelemetry-distro/src/amazon/opentelemetry/distro/llo_handler.py:546-577 | Every attribute either stays or is LLO content, as often as it occurs |
| `LloHandler.EveryEntryBecomesAMessage` | aws-opentelemetry-distro/src/amazon/opentelemetry/distro/llo_handler.py:225-290 | Every collected entry becomes a message of its own if and only if no two share pattern and index |
| `LloHandler.CanonicalKeysAreDistinct` | aws-opentelemetry-distro/src/amazon/opentelemetry/distro/llo_handler.py:270-286 | Keys written as pattern with index never share a place |
| `LloHandler.SpanEmitsEverythingExactly` | aws-opentelemetry-distro/src/amazon/opentelemetry/distro/llo_handler.py:225-467 | All LLO content of a span is emitted, one message an entry in exactly one of the two lists, if and only if no two entries share a key or a place; otherwise fewer messages are emitted |
| `LloHandler.CanonicalKeysEmitAllCollected` | aws-opentelemetry-distro/src/amazon/opentelemetry/distro/llo_handler.py:257-467 | With canonical keys every collected entry is in exactly one of the two emitted lists |
| `LloHandler.SharedPlaceLosesAMessage` | aws-opentelemetry-distro/src/amazon/opentelemetry/distro/llo_handler.py:270-286 | Two entries of one place become one message |
| `LloHandler.OneAndZeroOneShareAPlace` | aws-opentelemetry-distro/src/amazon/opentelemetry/distro/llo_handler.py:270-286 | Two prompt keys, with indices 1 and 01, that share a place |
| `LloHandler.IndexedMessagesInOrder` | aws-opentelemetry-distro/src/amazon/opentelemetry/distro/llo_handler.py:289-290 | Indexed messages come by pattern, then index |
| `LloHandler.GroupingPartitions` | aws-opentelemetry-distro/src/amazon/opentelemetry/distro/llo_handler.py:438-467 | Each message goes to exactly one list |
| `LloLanes.RolesKeepToTheirLists` | aws-opentelemetry-distro/src/amazon/opentelemetry/distro/llo_handler.py:438-467 | Of any messages no system or user message is emitted as output, and no assistant message as input |
| `LloLanes.GroupedInOrder` | aws-opentelemetry-distro/src/amazon/opentelemetry/distro/llo_handler.py:438-467 | Assistants' messages are output, systems' and users' input, others output exactly if their source contains completion, output or result; each list keeps the order |
| `LloLanes.MessageIsInLane` | aws-opentelemetry-distro/src/amazon/opentelemetry/distro/llo_handler.py:44-170 | The message of a registered key has the role and goes to the list of that key, by a table of keys: prompts, user and system messages input, completions and assistant messages output, numbered keys by their pattern |
| `LloLanes.SpanEmitsInLanes` | aws-opentelemetry-distro/src/amazon/opentelemetry/distro/llo_handler.py:225-467 | A span whose content does not collide emits every piece of it once, in the list and with the role of its key |
| `LloLanes.UnnumberedContentKeepsOrder` | aws-opentelemetry-distro/src/amazon/opentelemetry/distro/llo_handler.py:225-467 | A span with unnumbered content only emits what it collected, in the list and with the role of each key, in the order met |
| `LloLanes.IndexInExactly` | aws-opentelemetry-distro/src/amazon/opentelemetry/distro/llo_handler.py:257-286 | A numbered pattern matches exactly the keys of its form |
| `LloHandler.EmissionHoldsCollected` | aws-opentelemetry-distro/src/amazon/opentelemetry/distro/llo_handler.py:345-467 | A span emits exactly if it is not clean; what the emission holds with and without shared places |
| `LloHandler.RolesAreDefaults` | aws-opentelemetry-distro/src/amazon/opentelemetry/distro/llo_handler.py:275-280 | The role lookup never finds a role attribute of the span: indexed messages have default roles |
| `LloHandler.SecondPassDoesNothing` | aws-opentelemetry-distro/src/amazon/opentelemetry/distro/llo_handler.py:345-436 | A second pass collects, emits and changes nothing |
| `LloHandler.RegistryIsExclusive` | aws-opentelemetry-distro/src/amazon/opentelemetry/distro/llo_handler.py:44-170 | The registered patterns match no key in two ways and no role key at all |
| `ClaudeStream.Assembler.ProcessChunk` | aws-opentelemetry-distro/src/amazon/opentelemetry/distro/patches/_botocore_patches.py:342-414 | The assembler's new state for every chunk, and when the handler raises |
| `ClaudeStream.NoiseIsPassedOver` | aws-opentelemetry-distro/src/amazon/opentelemetry/distro/patches/_botocore_patches.py:342-414 | Untyped and unknown chunks, unknown deltas and the starts of blocks of other types change nothing, wherever they come |
| `ClaudeStream.BlockAppended` | aws-opentelemetry-distro/src/amazon/opentelemetry/distro/patches/_botocore_patches.py:360-393 | However text or tool JSON is cut into deltas, a block's chunks append that block and leave nothing behind; a block of another type appends one with no more than the input of its deltas |
| `ClaudeStream.BlockRaisesExactly` | aws-opentelemetry-distro/src/amazon/opentelemetry/distro/patches/_botocore_patches.py:360-393 | The chunks of a block raise if and only if they hold text for a block without a text |
| `ClaudeBlocks.TextArrives` | aws-opentelemetry-distro/src/amazon/opentelemetry/distro/patches/_botocore_patches.py:360-393 | However a text is cut into deltas, the block arrives with its first text and then all of it in order |
| `ClaudeBlocks.ToolInputArrives` | aws-opentelemetry-distro/src/amazon/opentelemetry/distro/patches/_botocore_patches.py:360-393 | A tool block arrives with what its pieces, put together in order, parse to, or with their text if that does not parse, or as it was opened if there is none |
| `ClaudeBlocks.LastReasonStays` | aws-opentelemetry-distro/src/amazon/opentelemetry/distro/patches/_botocore_patches.py:395-400 | The stop reason that is given last is the one that is left |
| `ClaudeBlocks.MessageArrives` | aws-opentelemetry-distro/src/amazon/opentelemetry/distro/patches/_botocore_patches.py:342-414 | What the callback is handed of a message of one text block |
| `ClaudeStream.MessageRebuilt` | aws-opentelemetry-distro/src/amazon/opentelemetry/distro/patches/_botocore_patches.py:342-414 | An assistant message is rebuilt whole, handed on once, and the assembler is idle again |
| `ClaudeStream.RebuiltAsSentExactly` | aws-opentelemetry-distro/src/amazon/opentelemetry/distro/patches/_botocore_patches.py:360-393 | The content is rebuilt as sent, unknown deltas included, if and only if no block has anything to lose |
| `ClaudeStream.ArrivesAsSentExactly` | aws-opentelemetry-distro/src/amazon/opentelemetry/distro/patches/_botocore_patches.py:342-414 | From stream to callback: the message handed on is the one sent if and only if no block has anything to lose |
| `ClaudeStream.TypedBlocksAreLost` | aws-opentelemetry-distro/src/amazon/opentelemetry/distro/patches/_botocore_patches.py:360-393 | So a message is rebuilt as sent if and only if it has no block of another type, such as thinking, and no delta of another type, such as citations; such a block becomes an empty one unless it has input deltas |
| `ClaudeStream.NoContamination` | aws-opentelemetry-distro/src/amazon/opentelemetry/distro/patches/_botocore_patches.py:342-414 | A following message is rebuilt as if it came first; its stop reason is the one before exactly when it brings none |
| `ClaudeStream.OtherRoleRaisesIffItHasBlocks` | aws-opentelemetry-distro/src/amazon/opentelemetry/distro/patches/_botocore_patches.py:383-393 | A message of another role raises if and only if it has a block |
| `Delimiters.TwoPassesAreOne` | aws-opentelemetry-distro/src/amazon/opentelemetry/distro/_aws_metric_attribute_generator.py:690-693 | The two replacements are one character map |
| `Delimiters.SplitUndoesJoin` | aws-opentelemetry-distro/src/amazon/opentelemetry/distro/_aws_metric_attribute_generator.py:473-477 | Splitting at unescaped bars and unescaping undoes escaping and joining, for every nonempty list |
| `Delimiters.IdentifiersDetermineParts` | aws-opentelemetry-distro/src/amazon/opentelemetry/distro/_aws_metric_attribute_generator.py:471-477 | One-part and two-part identifiers determine their parts |
| `Delimiters.SameConnectionId` | aws-opentelemetry-distro/src/amazon/opentelemetry/distro/_aws_metric_attribute_generator.py:646-687 | Exactly when two database connections get one identifier: same name, address and port, or one is read as the other |
| `Delimiters.ConnectionsCanBeConfused` | aws-opentelemetry-distro/src/amazon/opentelemetry/distro/_aws_metric_attribute_generator.py:646-672 | A database named x at 5432 without a port, and no name at x with port 5432, get one identifier |
| `SpanProcessing.OperationsAgree` | aws-opentelemetry-distro/src/amazon/opentelemetry/distro/_aws_span_processing_util.py:44-63 | For such spans both operations agree exactly when no Lambda handler is named |
| `SpanProcessing.ApiPathIsFirstPart` | aws-opentelemetry-distro/src/amazon/opentelemetry/distro/_aws_span_processing_util.py:66-80 | The path value is the stretch from the first slash to before the second |
| `SpanProcessing.ConsumerGeneratesExactly` | aws-opentelemetry-distro/src/amazon/opentelemetry/distro/_aws_span_processing_util.py:113-158 | A consumer span, not of boto3sqs, is left out exactly when it processes, is no local root and has a consumer parent kind |
| `SpanProcessing.ConsumersNeverLeftOutExactly` | aws-opentelemetry-distro/src/amazon/opentelemetry/distro/_aws_span_processing_util.py:113-158 | No consumer span is ever left out if and only if one of the two comparisons of a text with an enumeration holds of no text |
| `MetricAttributes.LowerConventionsDoNotMatter` | aws-opentelemetry-distro/src/amazon/opentelemetry/distro/_aws_metric_attribute_generator.py:272-307 | AWS remote names, RPC, database, FaaS, messaging, GraphQL: the first of these that names a remote decides, and no attribute of a later one changes the names |
| `MetricAttributes.KnownRemoteIgnoresTheRest` | aws-opentelemetry-distro/src/amazon/opentelemetry/distro/_aws_metric_attribute_generator.py:272-307 | When peer service and the deciding convention give known names, these are the remote names, whatever the addresses and all else |
| `RemoteNames.NamedServiceExactly` | aws-opentelemetry-distro/src/amazon/opentelemetry/distro/_aws_metric_attribute_generator.py:272-307 | A remote service is named exactly by the AWS remote name, else the peer service, else the text under the service key of the first convention with a key of its own, for AWS calls in its normalised form |
| `RemoteNames.NamedOperationExactly` | aws-opentelemetry-distro/src/amazon/opentelemetry/distro/_aws_metric_attribute_generator.py:272-307 | A remote operation is named exactly by the AWS remote name, else the text under the operation key of that convention, or the SQL keyword of a database's statement |
| `RemoteNames.RemoteIsNamed` | aws-opentelemetry-distro/src/amazon/opentelemetry/distro/_aws_metric_attribute_generator.py:272-418 | Every span's remote names: the named ones, and otherwise peer name, socket address or URL host with their ports, and request method with the first part of the path |
| `RemoteNames.ServiceIgnoresOperations` | aws-opentelemetry-distro/src/amazon/opentelemetry/distro/_aws_metric_attribute_generator.py:272-307 | What operations are called does not matter to the remote service, but for invoking a Lambda function |
| `RemoteNames.OperationIgnoresServices` | aws-opentelemetry-distro/src/amazon/opentelemetry/distro/_aws_metric_attribute_generator.py:272-307 | What services are called and where they are does not matter to the remote operation |
| `RemoteResources.ResourceIsRead` | aws-opentelemetry-distro/src/amazon/opentelemetry/distro/_aws_metric_attribute_generator.py:430-558 | Every span's remote resource: type, identifier and primary identifier of the first key it has in a table of keys in order, of the AgentCore resource it shows, or of its database connection |
| `RemoteResources.AgentCoreIsRead` | aws-opentelemetry-distro/src/amazon/opentelemetry/distro/_aws_metric_attribute_generator.py:713-894 | The AgentCore resource: the first of browser, gateway, runtime, interpreter, credentials and memory that is shown, by its identifier or the one in its ARN |
| `RemoteResources.ConnectionIsOfEndpoint` | aws-opentelemetry-distro/src/amazon/opentelemetry/distro/_aws_metric_attribute_generator.py:628-687 | A database connection is the name, the first address and its port, escaped and joined |
| `RemoteResources.PlaceIsFirst` | aws-opentelemetry-distro/src/amazon/opentelemetry/distro/_aws_metric_attribute_generator.py:561-585 | Account and region are those of the queue URL, or else of the first ARN in a table of keys |
| `MetricAttributes.DependencyEntriesHold` | aws-opentelemetry-distro/src/amazon/opentelemetry/distro/_aws_metric_attribute_generator.py:183-196 | What each key of the dependency attributes holds: nothing is overwritten, nothing else is written |
| `MetricReports.DependencyIsReported` | aws-opentelemetry-distro/src/amazon/opentelemetry/distro/_aws_metric_attribute_generator.py:183-196 | The dependency attributes of a span hold what these tables say of its own attributes, and nothing else |
| `MetricReports.ServiceIsReported` | aws-opentelemetry-distro/src/amazon/opentelemetry/distro/_aws_metric_attribute_generator.py:175-225 | The service attributes of a span are its service, what it serves and its kind |
| `MetricReports.GeneratesExactly` | aws-opentelemetry-distro/src/amazon/opentelemetry/distro/_aws_span_processing_util.py:101-158 | Which spans generate service and dependency attributes, by kind, parent and scope |
| `MetricAttributes.DataSourceIsDetermined` | aws-opentelemetry-distro/src/amazon/opentelemetry/distro/_aws_metric_attribute_generator.py:470-477 | The primary identifier of a data source determines knowledge base and data source |
| `MetricAttributes.GenerateFailsExactly` | aws-opentelemetry-distro/src/amazon/opentelemetry/distro/_aws_metric_attribute_generator.py:164-196 | Generating raises exactly for a data source without knowledge base, or in Lambda without a scope |
| `MetricAttributes.ServiceWithinDependency` | aws-opentelemetry-distro/src/amazon/opentelemetry/distro/aws_metric_attributes_span_exporter.py:64-68 | Service attributes are among the dependency attributes, but for the kind, exactly when no Lambda handler is named |
| `MetricAttributes.RemoteIsStable` | aws-opentelemetry-distro/src/amazon/opentelemetry/distro/_aws_metric_attribute_generator.py:272-307 | Generated remote names given back as AWS remote names are found again |
| `MetricAttributes.DependencyIsStable` | aws-opentelemetry-distro/src/amazon/opentelemetry/distro/_aws_metric_attribute_generator.py:183-196 | Generating from generated attributes gives the same dependency attributes |
| `MetricSpanExporter.SetRemoteServiceAndOperation` | aws-opentelemetry-distro/src/amazon/opentelemetry/distro/_aws_metric_attribute_generator.py:242-307 | Writes the names of the priority table and nothing else |
| `MetricSpanExporter.FindPlace` | aws-opentelemetry-distro/src/amazon/opentelemetry/distro/_aws_metric_attribute_generator.py:561-585 | The place of a queue URL, or of the first ARN attribute present |
| `MetricSpanExporter.SetRemoteTypeAndIdentifier` | aws-opentelemetry-distro/src/amazon/opentelemetry/distro/_aws_metric_attribute_generator.py:544-558 | Writes all three resource attributes or none |
| `MetricSpanExporter.GenerateServiceMetricAttributes` | aws-opentelemetry-distro/src/amazon/opentelemetry/distro/_aws_metric_attribute_generator.py:175-225 | The service attributes, written one after another |
| `MetricSpanExporter.GenerateDependencyMetricAttributes` | aws-opentelemetry-distro/src/amazon/opentelemetry/distro/_aws_metric_attribute_generator.py:183-196 | The dependency attributes, written one after another |
| `MetricSpanExporter.ExportIsReported` | aws-opentelemetry-distro/src/amazon/opentelemetry/distro/aws_metric_attributes_span_exporter.py:57-130 | Every exported span is the span with what is reported of it put over its attributes |
| `MetricSpanExporter.ExportedWithBoth` | aws-opentelemetry-distro/src/amazon/opentelemetry/distro/aws_metric_attributes_span_exporter.py:57-87 | A span generating both kinds is exported with kind LOCAL_ROOT, all other dependency attributes, everything else unchanged, and all service attributes exactly when no Lambda handler is named |
| `MetricSpanExporter.ExportingTwiceIsExportingOnce` | aws-opentelemetry-distro/src/amazon/opentelemetry/distro/aws_metric_attributes_span_exporter.py:57-130 | Exporting the exported form of any span changes nothing |
| `MetricSpanExporter.WrapSpanWithAttributes` | aws-opentelemetry-distro/src/amazon/opentelemetry/distro/aws_metric_attributes_span_exporter.py:109-130 | The span's attributes with the given ones put over them |
| `MetricSpanExporter.CopyAttributesWithLocalRoot` | aws-opentelemetry-distro/src/amazon/opentelemetry/distro/aws_metric_attributes_span_exporter.py:90-102 | A copy with the kind of a local root |
| `MetricSpanExporter.Exporter.AddMetricAttributes` | aws-opentelemetry-distro/src/amazon/opentelemetry/distro/aws_metric_attributes_span_exporter.py:57-87 | Spans are changed in order, each once even if it comes again, into what is reported of them; the first that cannot be generated stops the work |

## Left out

- HTTP, UDP, boto and signing traffic, compression and protobuf encoding: outcomes are inputs.
- Threads, timers and locks: each public method is one atomic step, and a clock reading is taken once per call.
- Rounding: `Decimal` and floating-point numbers are reals, and time stamps and bases are exact.
- What the ratio sampler says of a request is a function of the rate, given as an input, and so is the fallback sampler's verdict; the two pollers are sequences of operations in any order.
- Deriving a request's path, service type and ARN from span and resource attributes (`_sampling_rule_applier.py` lines 113-202): what is matched is an input.
- Sorting the caller's rule list in place: the list is a value.
- SamplingRuleApplier.StatisticsDocument.Snapshot: the client id, a constant copied into every report, is left out.
- RuleCache.RuleCache.ShouldSample: its result is compared with the value model only where appliers share no limiter or document. Only an update that repeats a rule makes them share; the contract then gives the state directly.
- RuleCache.RuleCache.UpdateSamplingTargets: its loop is two loops here, one for the appliers and one for the interval.
- Matcher.WildCardMatch: compiled patterns are matched by a matcher for literals, escapes, `.` and `.*`; upstream's regex engine is not modelled.
- Matcher.AttributeMatch: attribute values are text, so a number met by a wildcard, which raises, is not shown.
- Log values are texts, bytes and containers by identity; the `str` of numbers is given as text, and mutation during a scan is not modelled.
- BatchLogProcessor.Processor.Export: `_should_export_batch` is any decision that stops at an empty queue; logs arriving during an export are not modelled.
- Log event dictionaries are values, so a caller that changes one after sending it is not modelled; `LogEventBatch.clear` is never called.
- CloudWatchLogClient.Client.SendLogBatch: errors other than client errors count as refusals.
- The EMF record around a converted histogram, its minimum and maximum, and other metric kinds.
- ArchiveRuns.CopyArchive: `turns` bounds the loop, which need not end; the contract says how many are enough. Of following links it is only assumed that a path without links leads to itself, so what a copy comes to where links lie at the destination, or on the way to the source, is not stated beyond `FileStaysInsideExactly`; such a copy can write elsewhere and, led back into the source, need not end. Of a destination at or above the source, or inside it and holding something already, only the bounds and what stays unchanged are stated. Permissions, writing to special files, and errors other than missing parents and existing paths are not modelled.
- `copy_recursive`, which follows links and so depends on operating-system limits on cycles.
- LloHandler.Handler.EmitLloAttributes: an emission is its two lists of messages; time stamps, ids, session attributes and the provider are not modelled.
- LloHandler.CollectIndexedMessages: digits are ASCII digits.
- MetricSpanExporter.WrapSpanWithAttributes: bounded attribute dictionaries never evict here.
- Streamed content is by value: two uses of one content list are not told apart, and JSON parsing is any partial function. The Converse handler is not modelled.
- How upstream enumerations compare with text is an input.
- Attributes have the types their conventions give: text, integer ports and a list of table names. URL, ARN, SQS and SQL parsing are inputs, and URL parsing does not raise.
- Patches of web frameworks and clients, distro configuration, Lambda wrapping, path caching, contract tests and sample applications.
