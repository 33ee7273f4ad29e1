# ilogtail rule engines in Dafny

This project models eight self-contained rule engines of the ilogtail telemetry
agent and proves properties of them:

- the Kubernetes metadata collector (`meta_collector.go`): the registry of
  transforms that `Start` builds, the event dispatch of `handleEvent`, the two
  bounded queues of `send`, the two-group batcher of `sendInBackground`, and
  `genKey` and `isLink` (module `MetaCollector`);
- the delimiter log parser (`ProcessorParseDelimiterNative`): option checking
  in `Init`, trimming, `SplitString`, the packing of extra quoted columns, the
  keep/discard/rename decisions of `ProcessEvent`, and the in-place filtering
  of `Process` (modules `DelimiterSplit`, `DelimiterParser`, `DelimiterProperties`);
- the four source-field rules shared by the native parsers
  (`CommonParserOptions`, module `ParserOptions`);
- Prometheus scrape configuration (`ScrapeConfig`): defaults, the
  `max_scrape_size` units, the authentication rules, the Basic and
  Authorization headers, and the query string (module `ScrapeConfig`);
- the Prometheus text-format parser (`TextParser`): the line loop, the skip
  rules, the timestamp rule, the label split and the job/instance tags
  (module `TextParser`);
- YAML-to-JSON conversion (`YamlUtil`): scalar decoding priority and the
  recursive conversion of sequences and maps (module `YamlUtil`);
- the Go-pipeline configuration helpers of `Pipeline`: `MergeGoPipeline`,
  `AddPluginToGoPipeline`, the global parameters, the plugin-id counter, and
  `Send` and `FlushBatch` (module `Pipeline`);
- host identity (`MachineInfoUtil`): `IsDigitsDotsHostname` with the `strtoul`
  forms it relies on, the kernel-version packing of `GetKernelInfo`,
  `ParseECSMeta` and the host-id choice of `HostIdentifier` (module `MachineInfo`).

Shared modules: `Wrappers` (Option and Result), `Strings` (decimal digits,
`std::to_string`, `stoll`, split and join, code-point string order), and `Json`
(a jsoncpp value: null, bool, int, double, string, array, object as a map).

Where the source changes state in place the model is imperative: classes whose
methods carry `modifies` clauses, loops with invariants, and each method proved
against a specification function about which the lemmas are stated. Foreign
code (md5, base64, file reads, curl, RE2 and `stod`, yaml-cpp, the quote-aware
splitter, the router and the flushers, the random UUID, the clock) enters as
parameters.

## Model

| member | source | states |
|---|---|---|
| ParserOptions.DefaultOptions | core/processor/CommonParserOptions.h:30-33 | before the configuration is read no source is kept on either outcome, nothing is copied and the renamed key is empty |
| ParserOptions.UnmatchLogKeepsEvent | core/processor/CommonParserOptions.h:36-70 | an unmatched raw log is added exactly on a failed parse whose source field is not erased and whose raw log is copied; the event then is never dropped, and the renamed copy is added beside it exactly when the source key differs from the renamed key |
| ParserOptions.RenamedIsKeep | core/processor/CommonParserOptions.h:40-44 | the renamed source copy is added exactly when the source is kept for that outcome and the source key differs from the renamed key |
| ParserOptions.RenamedSourceNeverOntoItself | core/processor/CommonParserOptions.h:41-44 | no renamed copy is added when the source key already is the renamed key |
| ParserOptions.EraseIsNotKeep | core/processor/CommonParserOptions.h:45-48 | the source field is erased exactly when it is not kept for that outcome |
| ParserOptions.RenamedAndEraseExclusive | core/processor/CommonParserOptions.h:41-48 | the source field is never both renamed and erased |
| ParserOptions.EraseEventOnlyOnDroppedFailure | core/processor/CommonParserOptions.h:50-70 | a successful parse, or a failed one whose source is kept, never drops the event |
| ParserOptions.EraseEventWhenEmptyOrOffsetOnly | core/processor/CommonParserOptions.h:50-71 | a failed, unkept event is dropped exactly when it has no contents or only the file-offset key (the unit-test build also accepts the group-metadata spelling) |
| ParserOptions.ProductionKeepsGroupMetaOffset | core/processor/CommonParserOptions.h:56-67 | only the unit-test build drops an event whose single key is the group-metadata spelling of the file offset |
| DelimiterSplit.MatchFromIsOccurrence | core/processor/ProcessorParseDelimiterNative.cpp:307 | the character-by-character comparison strstr makes is exactly an equality of the separator with the text at that position |
| DelimiterSplit.FindBefore | core/processor/ProcessorParseDelimiterNative.cpp:307-308 | a separator found lies at or after the start and ends by the search limit |
| DelimiterSplit.FindBeforeOccurs | core/processor/ProcessorParseDelimiterNative.cpp:307-308 | what the search finds is an occurrence of the separator with none earlier; when it finds nothing there is no occurrence in range |
| DelimiterSplit.NextSeparator | core/processor/ProcessorParseDelimiterNative.cpp:307-308 | the loop's next position is either endIdx (no separator) or a position at or after pos whose separator ends by the search end |
| DelimiterSplit.NextSeparatorOccurs | core/processor/ProcessorParseDelimiterNative.cpp:307-308 | a next position other than endIdx holds the separator |
| DelimiterSplit.SplitFromStep | core/processor/ProcessorParseDelimiterNative.cpp:306-324 | a turn of the loop that neither ends it nor reaches the key limit pushes the column [pos, pos2) and goes on after the separator |
| DelimiterSplit.SplitFromStop | core/processor/ProcessorParseDelimiterNative.cpp:306-328 | the three ways the loop ends: too little span left (one last column if pos is inside it), no separator found (the column up to endIdx), and the key limit without auto-extend (the column and an overflow column starting at the separator) |
| DelimiterSplit.SplitFromInSpan | core/processor/ProcessorParseDelimiterNative.cpp:304-329 | when the search is bounded by endIdx every column lies inside [pos, endIdx] |
| DelimiterSplit.InSpanStep | core/processor/ProcessorParseDelimiterNative.cpp:309-318 | one turn of the loop keeps all columns inside the span |
| DelimiterSplit.SplitFromCount | core/processor/ProcessorParseDelimiterNative.cpp:319-323 | without auto-extend the loop stops with at most nKeys + 1 columns |
| DelimiterSplit.SplitFromTiles | core/processor/ProcessorParseDelimiterNative.cpp:304-329 | the columns tile the rest of the span in order, consecutive columns separated by one separator occurrence (or, for the overflow column, starting at it) |
| DelimiterSplit.TilesStep | core/processor/ProcessorParseDelimiterNative.cpp:309-318 | one turn of the loop adds a column followed by a separator in front of what the rest tiles |
| DelimiterSplit.SplitColumnsFailsIff | core/processor/ProcessorParseDelimiterNative.cpp:295-296 | SplitString fails, with no columns, exactly on an empty span, an empty separator or no keys |
| DelimiterSplit.SplitColumnsTileSpan | core/processor/ProcessorParseDelimiterNative.cpp:293-330 | a successful split gives at least one column, every column inside [begIdx, endIdx), and the columns with their separators tile the span |
| DelimiterSplit.SplitColumnsAtMostKeysPlusOne | core/processor/ProcessorParseDelimiterNative.cpp:319-323 | without auto-extend a split has at most nKeys + 1 columns |
| DelimiterSplit.SeparatorAtColumnStartGivesEmptyColumn | core/processor/ProcessorParseDelimiterNative.cpp:309-315 | a separator right where a column starts gives a zero-length column there |
| DelimiterSplit.SplitExamples | core/processor/ProcessorParseDelimiterNative.cpp:293-330 | "a,,b" with three keys splits into "a", "" and "b"; with one key and no auto-extend into "a" and the overflow ",,b" |
| DelimiterSplit.SplitAsWrittenLeavesSpan | core/processor/ProcessorParseDelimiterNative.cpp:305-308 | on "a  bc\r  " trimmed to [0, 5) with a two-space separator, the search as written finds the separator in the trimmed tail and yields a column past endIdx (and, without auto-extend, one of length -1) |
| DelimiterSplit.SplitColumnsStaysInSpan | core/processor/ProcessorParseDelimiterNative.cpp:305-308 | on the same value the search bounded by endIdx yields the columns "a" and "bc", with or without auto-extend |
| DelimiterParser.Unescape | core/processor/ProcessorParseDelimiterNative.cpp:43-44 | the two characters backslash-t become a tab, and unescaping never lengthens the separator |
| DelimiterParser.Configure | core/processor/ProcessorParseDelimiterNative.cpp:30-126 | Init fails on a missing source key or separator and on a separator longer than 3; on success the source key and keys are the configured ones, the separator has at most 3 characters (backslash-t read as a tab), the separator character is its first character or a tab, a quote string given for a one-character separator is one character and becomes the quote, the overwrite flags agree with the keys, and auto-extend holds exactly for "extend" and partial extraction exactly for "discard" |
| DelimiterParser.ScanKeys | core/processor/ProcessorParseDelimiterNative.cpp:105-112 | the key loop ends with the source-key flag set exactly when it was set before or the source key is among the keys, and the raw-log flag exactly when it was set before or the renamed key is among them |
| DelimiterParser.Assemble | core/processor/ProcessorParseDelimiterNative.cpp:60-115 | once the source key, separator, quote and keys are read, Init's remaining steps produce exactly the settings Assembled describes |
| DelimiterParser.ReadSettings | core/processor/ProcessorParseDelimiterNative.cpp:30-116 | Init's step-by-step reading of the options gives exactly Configure's result |
| DelimiterParser.TrimEnd | core/processor/ProcessorParseDelimiterNative.cpp:159-164 | everything cut at the end is a space or carriage return, and the last character kept is neither |
| DelimiterParser.TrimBegin | core/processor/ProcessorParseDelimiterNative.cpp:165-171 | everything cut at the start is a space, and the first character kept is not |
| DelimiterParser.TrimSpan | core/processor/ProcessorParseDelimiterNative.cpp:155-171 | the two trimming loops leave the largest span without trailing spaces or carriage returns and without leading spaces, which is exactly [TrimBegin, TrimEnd) |
| DelimiterParser.TrimEndUnique | core/processor/ProcessorParseDelimiterNative.cpp:159-164 | an end with only spaces and carriage returns after it and neither just before it is TrimEnd |
| DelimiterParser.TrimBeginUnique | core/processor/ProcessorParseDelimiterNative.cpp:165-171 | a start with only spaces before it and none at it is TrimBegin |
| DelimiterParser.SplitString | core/processor/ProcessorParseDelimiterNative.cpp:293-330 | the loop pushes exactly the columns of SplitColumns, the corrected split whose separator search stops at the end of the trimmed span (the as-written search runs past it; see Findings) |
| DelimiterParser.Texts | core/processor/ProcessorParseDelimiterNative.cpp:262-271 | one text per column, each the column's slice of the value |
| DelimiterParser.PackedExtraLength | core/processor/ProcessorParseDelimiterNative.cpp:187-190 | the packed extra columns are exactly requiredLen long: one separator character per extra column plus their lengths |
| DelimiterParser.PackedExtraJoin | core/processor/ProcessorParseDelimiterNative.cpp:193-198 | the packed extras are a separator followed by the extras joined with the separator |
| DelimiterParser.PackedExtraSplits | core/processor/ProcessorParseDelimiterNative.cpp:193-198 | splitting the packed extras after their first character gives the extra columns back when none holds the separator |
| DelimiterParser.PackColumns | core/processor/ProcessorParseDelimiterNative.cpp:186-202 | after packing there are nKeys + 1 columns and the first nKeys are unchanged |
| DelimiterParser.PackExtraFields | core/processor/ProcessorParseDelimiterNative.cpp:186-202 | the two packing loops produce PackColumns and a requiredLen equal to the packed column's length |
| DelimiterParser.SplitSpan | core/processor/ProcessorParseDelimiterNative.cpp:180-209 | the splitting step uses the quote-aware parser (with packing) for a one-character separator different from the quote and SplitString otherwise |
| DelimiterParser.ParseSpan | core/processor/ProcessorParseDelimiterNative.cpp:181-253 | a parse succeeds only with keys, at least one column, and (unless shortened fields are allowed) at least as many columns as keys; with no keys it always fails |
| DelimiterParser.ColumnWrites | core/processor/ProcessorParseDelimiterNative.cpp:255-274 | the column loop makes at most one write per column |
| DelimiterParser.Survivors | core/processor/ProcessorParseDelimiterNative.cpp:128-143 | Process never adds events |
| DelimiterParser.Metrics.constructor | core/processor/ProcessorParseDelimiterNative.cpp:118-124 | all counters start at zero |
| DelimiterParser.EventGroup.constructor | core/processor/ProcessorParseDelimiterNative.cpp:133 | the group holds the given events |
| DelimiterParser.Processor.constructor | core/processor/ProcessorParseDelimiterNative.cpp:30 | the processor starts with the default members and fresh zero counters |
| DelimiterParser.Processor.Init | core/processor/ProcessorParseDelimiterNative.cpp:30-126 | Init succeeds exactly when Configure does and then holds its settings |
| DelimiterParser.Processor.AddLog | core/processor/ProcessorParseDelimiterNative.cpp:332-336 | the key is set to the value, the group size grows by key and value sizes plus 5 and the output bytes by key and value sizes |
| DelimiterParser.Processor.CountParseError | core/processor/ProcessorParseDelimiterNative.cpp:226-227 | a failed parse adds one to the parse failures and the parse error total |
| DelimiterParser.Processor.ParseBuffer | core/processor/ProcessorParseDelimiterNative.cpp:174-253 | the parse of the trimmed span gives ParseSpan's outcome and counts one error exactly when it fails |
| DelimiterParser.Processor.WriteColumns | core/processor/ProcessorParseDelimiterNative.cpp:255-274 | the column loop applies ColumnWrites in order and counts their bytes |
| DelimiterParser.Processor.WriteColumn | core/processor/ProcessorParseDelimiterNative.cpp:257-273 | a skipped column changes nothing; any other is stored under its key (the configured key or "__column<i>__") with its bytes counted |
| DelimiterParser.Processor.WriteRecords | core/processor/ProcessorParseDelimiterNative.cpp:255-283 | the writes after a parse are EventWrites, applied in order with their bytes counted |
| DelimiterParser.Processor.ProcessEvent | core/processor/ProcessorParseDelimiterNative.cpp:145-291 | the event kept or dropped, the event afterwards and the counters follow EventOutcome, which splits with the corrected, span-bounded search |
| DelimiterParser.OutcomeParsed | core/processor/ProcessorParseDelimiterNative.cpp:173-291 | the parse, the writes, the removal of the source field and the discard count of ProcessEvent, taken step by step, add up to EventOutcome's decision, event and counters |
| DelimiterParser.Processor.CountDiscard | core/processor/ProcessorParseDelimiterNative.cpp:289 | a dropped event adds one to the discard total |
| DelimiterParser.Processor.Process | core/processor/ProcessorParseDelimiterNative.cpp:128-143 | the group afterwards holds exactly the surviving events, in order, erased in place, and the counters grow by the sum of the events' deltas |
| DelimiterParser.Processor.ProcessAt | core/processor/ProcessorParseDelimiterNative.cpp:135-141 | one turn of the erase loop keeps the processed event in place or removes it, leaving the rest untouched |
| DelimiterParser.KeptSnoc | core/processor/ProcessorParseDelimiterNative.cpp:135-141 | the kept events and summed deltas of one more outcome extend those of the earlier ones |
| DelimiterParser.SurvivorsOfOutcomes | core/processor/ProcessorParseDelimiterNative.cpp:135-141 | the events and counters the loop accumulates are Survivors and TotalDelta |
| DelimiterParser.EventOutcomeOfParse | core/processor/ProcessorParseDelimiterNative.cpp:153-291 | a parsable event is kept exactly when the parse succeeds or the source is kept on failure, its contents are the writes applied (minus the source key after a success that does not overwrite it), and the counters move by the sizes, a failure and a discard as the source does |
| DelimiterParser.ColumnWritesStep | core/processor/ProcessorParseDelimiterNative.cpp:256-273 | one more column adds its write unless it is skipped |
| DelimiterParser.WritesSnoc | core/processor/ProcessorParseDelimiterNative.cpp:332-336 | one more write sets its key last and adds its bytes to both size counters |
| DelimiterProperties.ConfigureDerivedFlagsIff | core/processor/ProcessorParseDelimiterNative.cpp:101-112 | after Init the source key counts as overwritten exactly when it is a key or is renamed onto itself while kept on success, and the raw-log tag exactly when the renamed key is a key |
| DelimiterProperties.ConfigureQuoteRule | core/processor/ProcessorParseDelimiterNative.cpp:46-55 | a quote option that is not one character fails Init for a one-character separator |
| DelimiterProperties.BlankIff | core/processor/ProcessorParseDelimiterNative.cpp:155-173 | trimming leaves nothing exactly when the value holds only spaces and carriage returns |
| DelimiterProperties.UntouchedEvents | core/processor/ProcessorParseDelimiterNative.cpp:146-173 | events that are not logs or lack the source key pass unchanged with no counter change; a blank source value passes unchanged with only its size counted |
| DelimiterProperties.ApplyWritesOther | core/processor/ProcessorParseDelimiterNative.cpp:333 | a write to one key leaves every other key as it was |
| DelimiterProperties.ApplyWritesLastWins | core/processor/ProcessorParseDelimiterNative.cpp:333 | a key holds the value of its last write |
| DelimiterProperties.ApplyWritesUntouched | core/processor/ProcessorParseDelimiterNative.cpp:333 | keys no write names keep their original presence and value |
| DelimiterProperties.ColumnKeyInjective | core/processor/ProcessorParseDelimiterNative.cpp:268 | the generated "__column<i>__" keys of different extra columns differ |
| DelimiterProperties.ColumnWritesStore | core/processor/ProcessorParseDelimiterNative.cpp:255-274 | a column that is not skipped and not overwritten by a later column ends up stored under its key |
| DelimiterProperties.ParseFailsIff | core/processor/ProcessorParseDelimiterNative.cpp:181-253 | a parse fails exactly with no keys, a failed split, no columns, or fewer columns than keys when shortened fields are not allowed |
| DelimiterProperties.KeepIff | core/processor/ProcessorParseDelimiterNative.cpp:280-290 | a parsable event stays exactly when its parse succeeds or the source is kept on failure; it is counted as discarded exactly when dropped and as a failure exactly when the parse fails |
| DelimiterProperties.FailureKeepsRawLog | core/processor/ProcessorParseDelimiterNative.cpp:275-279 | after a failed parse the raw log holds the whole source value when the source is kept on failure or copied, and otherwise the contents are unchanged |
| DelimiterProperties.SuccessErasesSource | core/processor/ProcessorParseDelimiterNative.cpp:284-286 | a successful parse removes the source key unless a column or the renamed copy overwrote it |
| DelimiterProperties.SuccessStoresColumn | core/processor/ProcessorParseDelimiterNative.cpp:255-286 | after a successful parse each kept column whose key no later write reuses holds its text |
| DelimiterProperties.SurvivorsCount | core/processor/ProcessorParseDelimiterNative.cpp:128-143 | the events left plus the events counted as discarded are exactly the events the group held |
| DelimiterProperties.SurvivorsAreKeptOutcomes | core/processor/ProcessorParseDelimiterNative.cpp:135-141 | every event left is the processed form of an original event that ProcessEvent kept |
| MetaCollector.ResourceTypesRouting | plugins/input/kubernetesmetav2/meta_collector.go:194-196 | pod and service are not link types; the pod-to-service type is |
| MetaCollector.LinkRecordsGoToEntityBuffer | plugins/input/kubernetesmetav2/meta_collector.go:85-119 | because the link flag is passed as `entity`, records of the pod-to-service link type go to the entity queue and pod and service records to the link queue |
| MetaCollector.OutputsMembership | plugins/input/kubernetesmetav2/meta_collector.go:81-87 | a record is sent for an event exactly when some registered transform returns it (nil results are not sent) |
| MetaCollector.OutputsOfNilTransforms | plugins/input/kubernetesmetav2/meta_collector.go:84 | transforms that all return nil send nothing |
| MetaCollector.DispatchedNeedsKnownKindAndType | plugins/input/kubernetesmetav2/meta_collector.go:67-111 | an event sends something only when its type is Add, Update or Delete and its resource type has registered transforms |
| MetaCollector.OfferAllSnoc | plugins/input/kubernetesmetav2/meta_collector.go:113-125 | offering records one by one is offering the earlier ones, then the last |
| MetaCollector.RouteSnoc | plugins/input/kubernetesmetav2/meta_collector.go:82-125 | routing the records of an event one at a time composes in order |
| MetaCollector.OfferAllTakesPrefix | plugins/input/kubernetesmetav2/meta_collector.go:120-124 | a bounded queue keeps the records that fit, in order, and drops the rest |
| MetaCollector.OfferAllWithRoom | plugins/input/kubernetesmetav2/meta_collector.go:120-121 | with room for all records the queue takes every one of them |
| MetaCollector.StartFromEmpty | plugins/input/kubernetesmetav2/meta_collector.go:32-48 | Start registers [pod entity, pod-replicaset link] for pods, [service entity] for services, and [pod-service link] only when pods, services and the link are all enabled; nothing else |
| MetaCollector.StopUnregistersUnregisteredLink | plugins/input/kubernetesmetav2/meta_collector.go:33-62 | Start never registers a send function for the pod-to-service type, yet Stop unregisters it whenever pods, services and the link are enabled |
| MetaCollector.StringContentsExactly | plugins/input/kubernetesmetav2/meta_collector.go:167-173 | the converted log holds exactly the string-valued contents; other values are skipped |
| MetaCollector.ConvertedLogIff | plugins/input/kubernetesmetav2/meta_collector.go:163-178 | only log events convert, and the converted time fits in 32 bits |
| MetaCollector.ConvertAllAppend | plugins/input/kubernetesmetav2/meta_collector.go:130-135 | converting two groups one after the other converts their concatenation |
| MetaCollector.ConvertPipelineEventToLog | plugins/input/kubernetesmetav2/meta_collector.go:163-178 | the conversion loop produces ConvertedLog |
| MetaCollector.GenKeyOfConcatenation | plugins/input/kubernetesmetav2/meta_collector.go:184-188 | genKey depends only on the concatenation namespace + kind + name |
| MetaCollector.GenKeyCollision | plugins/input/kubernetesmetav2/meta_collector.go:185 | with no separator, ("ab", "c", "pod") and ("a", "bc", "pod") get the same key |
| MetaCollector.ConcatenationDeterminesOneComponent | plugins/input/kubernetesmetav2/meta_collector.go:185 | when two of the three components agree, equal concatenations mean the third agrees too |
| MetaCollector.Collector.constructor | plugins/input/kubernetesmetav2/meta_collector.go:19-30 | a collector starts with no transforms, no types, no manager calls and empty queues |
| MetaCollector.Collector.Start | plugins/input/kubernetesmetav2/meta_collector.go:32-51 | Start adds the transforms, entity types and registrations of StartProcessors, StartTypes and StartCalls and starts an empty batcher |
| MetaCollector.Collector.Stop | plugins/input/kubernetesmetav2/meta_collector.go:53-65 | Stop makes the unregistrations of StopCalls and closes the stop channel, changing nothing else |
| MetaCollector.Collector.Send | plugins/input/kubernetesmetav2/meta_collector.go:113-125 | the record is offered to the entity queue when the flag is true and to the link queue otherwise; the other queue is untouched |
| MetaCollector.Collector.RunTransform | plugins/input/kubernetesmetav2/meta_collector.go:83-86 | a transform's non-nil result is routed by the resource type's link flag |
| MetaCollector.Collector.HandleWithLabel | plugins/input/kubernetesmetav2/meta_collector.go:80-111 | every registered transform runs in order with the label and its outputs are routed |
| MetaCollector.Collector.HandleEvent | plugins/input/kubernetesmetav2/meta_collector.go:67-78 | an event routes exactly Dispatched: the outputs of its type's transforms under "create", "update" or "delete", nothing for other event types |
| MetaCollector.Batcher.constructor | plugins/input/kubernetesmetav2/meta_collector.go:128-129 | both groups start empty and nothing is collected |
| MetaCollector.Batcher.Collect | plugins/input/kubernetesmetav2/meta_collector.go:130-135 | every event of a flushed group is converted and handed to AddRawLog, in order |
| MetaCollector.Batcher.ReceiveEntity | plugins/input/kubernetesmetav2/meta_collector.go:140-144 | a record taken off the entity queue joins the entity group, which is flushed and emptied when it reaches 100; the link group is untouched |
| MetaCollector.Batcher.ReceiveLink | plugins/input/kubernetesmetav2/meta_collector.go:145-149 | a record taken off the link queue joins the link group, which is flushed and emptied when it reaches 100; the entity group is untouched |
| MetaCollector.Batcher.Timeout | plugins/input/kubernetesmetav2/meta_collector.go:150-156 | an idle timeout flushes the entity group and then the link group |
| MetaCollector.Batcher.StopStep | plugins/input/kubernetesmetav2/meta_collector.go:157-158 | the stop signal ends the loop without flushing either group |
| ScrapeConfig.ScrapeSizeWithUnit | core/prometheus/schedulers/ScrapeConfig.cpp:73-100 | a decimal count followed by K, KB or KiB (and likewise M, G, T, P, E) gives the count times 1024 to the power of the unit's rank |
| ScrapeConfig.ScrapeSizeInBytes | core/prometheus/schedulers/ScrapeConfig.cpp:101-103 | a decimal count followed by B alone is the byte count itself |
| ScrapeConfig.ScrapeSizeWithoutUnit | core/prometheus/schedulers/ScrapeConfig.cpp:73-105 | a non-empty size with no unit suffix leaves the previous limit unchanged |
| ScrapeConfig.ScrapeSizeTruncatesFraction | core/prometheus/schedulers/ScrapeConfig.cpp:81-84 | "1.5MB" gives 1048576: stoll stops at the '.', so the fraction is dropped |
| ScrapeConfig.BasicCredentialsSplit | core/prometheus/schedulers/ScrapeConfig.cpp:186 | the "user:password" token splits back into the user and the password at its first ':' when the user has none |
| ScrapeConfig.BasicAuthIff | core/prometheus/schedulers/ScrapeConfig.cpp:150-190 | basic auth succeeds exactly when each of username and password is given inline or by file but not both and the files are readable; success sets the Authorization header to "Basic " + Base64(user:password); failure changes nothing |
| ScrapeConfig.AuthorizationIff | core/prometheus/schedulers/ScrapeConfig.cpp:192-224 | authorization succeeds exactly when credentials and credentials_file are not both set and the file is readable; success sets the header to type (default "Bearer") + " " + credentials; nothing else changes |
| ScrapeConfig.AppendQueryConcat | core/prometheus/schedulers/ScrapeConfig.cpp:134-145 | appending two runs of pieces is appending their concatenation |
| ScrapeConfig.AppendQueryIsJoin | core/prometheus/schedulers/ScrapeConfig.cpp:137-144 | starting from an empty query string, non-empty pieces are joined by "&" |
| ScrapeConfig.JoinStartsWithFirst | core/prometheus/schedulers/ScrapeConfig.cpp:137-144 | the query string starts with the first piece |
| ScrapeConfig.QueryPiecesMembership | core/prometheus/schedulers/ScrapeConfig.cpp:134-145 | every value of every parameter appears as key=value among the query pieces |
| ScrapeConfig.InitNeedsJobName | core/prometheus/schedulers/ScrapeConfig.cpp:28-36 | Init succeeds only when job_name is a non-empty string, which becomes the job name |
| ScrapeConfig.InitAuthModesExclusive | core/prometheus/schedulers/ScrapeConfig.cpp:53-58 | basic_auth and authorization together make Init fail |
| ScrapeConfig.InitKeepsDefaults | core/prometheus/schedulers/ScrapeConfig.cpp:18-148 | a configuration with only a job name succeeds and keeps every default |
| ScrapeConfig.ScrapeConfigObject.constructor | core/prometheus/schedulers/ScrapeConfig.cpp:18-26 | the defaults: 60 s interval, 10 s timeout, "/metrics", "http", size, sample and series limits -1 |
| ScrapeConfig.ScrapeConfigObject.InitBasicAuth | core/prometheus/schedulers/ScrapeConfig.cpp:150-190 | the method computes BasicAuthOf (see BasicAuthIff) |
| ScrapeConfig.ScrapeConfigObject.InitAuthorization | core/prometheus/schedulers/ScrapeConfig.cpp:192-224 | the method computes AuthorizationOf (see AuthorizationIff) |
| ScrapeConfig.ScrapeConfigObject.ReadParams | core/prometheus/schedulers/ScrapeConfig.cpp:113-127 | the params loop visits the keys in sorted order, replacing the entry of each array-valued key, and stops where asString throws |
| ScrapeConfig.ReadParam | core/prometheus/schedulers/ScrapeConfig.cpp:117-124 | one params member: an array replaces its key's values, anything else is skipped |
| ScrapeConfig.ParamsLoop | core/prometheus/schedulers/ScrapeConfig.cpp:116-125 | the loop over the params keys computes ParamsOf: every array-valued key in turn replaces its entry, and the loop stops at the first key whose values throw |
| ScrapeConfig.ElementsOf | core/prometheus/schedulers/ScrapeConfig.cpp:129 | iterating a JSON value visits an array's items, an object's values in key order, and nothing for any other value |
| ScrapeConfig.ScrapeConfigObject.AppendRelabelConfigs | core/prometheus/schedulers/ScrapeConfig.cpp:129-131 | every element of relabel_configs is appended in order; a missing member adds nothing |
| ScrapeConfig.ScrapeConfigObject.BuildQueryString | core/prometheus/schedulers/ScrapeConfig.cpp:133-145 | the query string gets the key=value pieces of every parameter in key order, joined by "&" |
| ScrapeConfig.QueryLoop | core/prometheus/schedulers/ScrapeConfig.cpp:134-145 | the outer loop appends the key=value pieces of every key in order |
| ScrapeConfig.AppendKeyValues | core/prometheus/schedulers/ScrapeConfig.cpp:137-144 | one key's values are appended as key=value pieces |
| ScrapeConfig.ScrapeConfigObject.Init | core/prometheus/schedulers/ScrapeConfig.cpp:27-148 | Init computes InitOf: its outcome (success, failure or a thrown exception) and the settings it leaves on every path |
| ScrapeConfig.ScrapeConfigObject.ReadTarget | core/prometheus/schedulers/ScrapeConfig.cpp:38-51 | interval and timeout go through the duration parser, path and scheme are copied, each only when it is a string |
| ScrapeConfig.ScrapeConfigObject.ReadAuthAndLimits | core/prometheus/schedulers/ScrapeConfig.cpp:53-112 | the authentication modes, max_scrape_size and the sample and series limits, stopping with failure or an exception as the source does |
| ScrapeConfig.ScrapeConfigObject.ReadParamsAndQuery | core/prometheus/schedulers/ScrapeConfig.cpp:113-145 | params, relabel rules and query string as ParamsAndQueryOf |
| ScrapeConfig.ValuesAsStrings | core/prometheus/schedulers/ScrapeConfig.cpp:119-122 | the values of one params array as strings, None where asString throws |
| ScrapeConfig.AsStringsStop | core/prometheus/schedulers/ScrapeConfig.cpp:120-122 | once asString throws on an item, the whole list fails |
| ScrapeConfig.ReadParamsStop | core/prometheus/schedulers/ScrapeConfig.cpp:116-125 | once a params entry throws, later keys change nothing |
| TextParser.TimestampRule | core/prometheus/labels/TextParser.cpp:84-100 | a timestamp of digits then three more digits is the leading part in seconds; one of at most three characters is 0; an empty one is the default |
| TextParser.SampleOfIff | core/prometheus/labels/TextParser.cpp:55-100 | a line is a sample exactly when the regular expression matches it fully, the name is non-empty, the value converts and is not NaN, and the timestamp converts; the sample then carries exactly those parts |
| TextParser.LabelShape | core/prometheus/labels/TextParser.cpp:110-117 | a label key holds no '=' and a value has its surrounding quotes removed |
| TextParser.LabelWithoutEquals | core/prometheus/labels/TextParser.cpp:112-113 | a label piece without '=' sets no tag |
| TextParser.TrimLeftPrefix | core/prometheus/labels/TextParser.cpp:110 | trimming removes exactly the leading run of the trimmed character |
| TextParser.TrimRightOne | core/prometheus/labels/TextParser.cpp:110 | trimming removes a trailing trimmed character |
| TextParser.Unquote | core/prometheus/labels/TextParser.cpp:116 | one pair of surrounding quotes is removed from a value |
| TextParser.TrimLeadingSpaces | core/prometheus/labels/TextParser.cpp:110 | spaces before a label piece are removed |
| TextParser.FirstEquals | core/prometheus/labels/TextParser.cpp:112-115 | the key ends at the first '=' and the value is everything after it |
| TextParser.LabelOfQuoted | core/prometheus/labels/TextParser.cpp:107-118 | a piece  key="value" (after spaces) gives exactly the tag (key, value) |
| TextParser.LabelOfTrimmed | core/prometheus/labels/TextParser.cpp:107-118 | a piece that trims to key=rest, with no = in key, gives the tag (key, rest without its surrounding quotes) |
| TextParser.PieceLabels | core/prometheus/labels/TextParser.cpp:109-118 | one label result per comma-separated piece, in order |
| TextParser.AssignKeys | core/prometheus/labels/TextParser.cpp:117 | the tags after the labels are the earlier tags plus exactly the keys of the parsed labels |
| TextParser.AssignLastWins | core/prometheus/labels/TextParser.cpp:117 | for a key given twice, the last value wins |
| TextParser.TargetTags | core/prometheus/labels/TextParser.cpp:219-224 | a non-empty job name and instance overwrite the job and instance tags; every other tag is kept |
| TextParser.SetLabelTags | core/prometheus/labels/TextParser.cpp:106-120 | the label loop computes Labels |
| TextParser.SetPieceTags | core/prometheus/labels/TextParser.cpp:109-119 | the piece loop applies every piece's label in order |
| TextParser.SetPieceTag | core/prometheus/labels/TextParser.cpp:110-118 | one piece sets its tag when it holds '=' |
| TextParser.ParseLine | core/prometheus/labels/TextParser.cpp:48-122 | ParseLine succeeds exactly when the line is a sample; on success the event gets the sample's name, timestamp, value and labels; on failure it is untouched |
| TextParser.LineEvents | core/prometheus/labels/TextParser.cpp:130-225 | one optional event per line, each decided by that line alone |
| TextParser.PresentAppend | core/prometheus/labels/TextParser.cpp:199 | the events of two runs of lines are those of each run, in order |
| TextParser.EventsAppend | core/prometheus/labels/TextParser.cpp:130-225 | parsing two pieces of content line by line is parsing them one after the other |
| TextParser.BlankOrCommentGivesNothing | core/prometheus/labels/TextParser.cpp:131-142 | a blank line or a comment gives no event |
| TextParser.SilentLineIgnored | core/prometheus/labels/TextParser.cpp:134-196 | a line that gives no event leaves the events of the other lines unchanged |
| TextParser.PresentAllSome | core/prometheus/labels/TextParser.cpp:199 | when every line gives an event, the group holds them all in order |
| TextParser.EventsOnePerLine | core/prometheus/labels/TextParser.cpp:130-225 | when every line is a sample, the group has one event per line, in line order |
| TextParser.PresentAtMost | core/prometheus/labels/TextParser.cpp:199 | no more events than candidate lines |
| TextParser.EventsAtMostLines | core/prometheus/labels/TextParser.cpp:130-225 | the group never has more events than the content has lines |
| TextParser.Parse | core/prometheus/labels/TextParser.cpp:124-228 | Parse returns exactly the events of the content's lines, in order |
| YamlUtil.ParseScalar | core/common/YamlUtil.cpp:52-77 | a quoted scalar ("!" tag) stays a string; otherwise the first decoder that accepts the text, in the order int, double, bool, string, decides the JSON kind, and null when none does |
| YamlUtil.ScalarFromDecoders | core/common/YamlUtil.cpp:56-74 | the JSON scalar holds exactly the value the accepting decoder produced |
| YamlUtil.NullGivesNull | core/common/YamlUtil.cpp:83-108 | a null node and an undefined node become JSON null |
| YamlUtil.ItemsConverted | core/common/YamlUtil.cpp:89-96 | the first n items convert exactly when each of them does, each to its own conversion at the same index |
| YamlUtil.SequenceConverted | core/common/YamlUtil.cpp:89-97 | a sequence converts exactly when every item does, to an array of the same length holding each item's conversion |
| YamlUtil.EmptyCollections | core/common/YamlUtil.cpp:89-105 | an empty sequence is an empty array and an empty map an empty object, not null |
| YamlUtil.EntriesConverted | core/common/YamlUtil.cpp:99-104 | after n entries the object's keys are exactly the keys of those entries, and a duplicated key holds the value of its last entry |
| YamlUtil.EntriesConvertedOk | core/common/YamlUtil.cpp:99-104 | a mapping that converts has only scalar keys and convertible values |
| YamlUtil.EntriesConvertedKeys | core/common/YamlUtil.cpp:99-104 | a key is in the converted object exactly when some entry binds it |
| YamlUtil.EntriesConvertedLast | core/common/YamlUtil.cpp:99-104 | the last entry binding a key decides that key's value; earlier duplicates are overwritten |
| YamlUtil.MappingConverted | core/common/YamlUtil.cpp:99-105 | a converted map is an object whose keys are exactly the entries' keys, the last duplicate winning |
| YamlUtil.NonScalarKeyFails | core/common/YamlUtil.cpp:102 | a map entry whose key is not a scalar makes the conversion throw |
| YamlUtil.ParseYamlConfig | core/common/YamlUtil.cpp:20-34 | success exactly when loading succeeds, and then the root is the loaded document; on failure the root is unchanged and the message names the exception kind |
| YamlUtil.CovertYamlToJson | core/common/YamlUtil.cpp:36-50 | success exactly when the conversion does not throw, and then the result is the conversion; on failure the result is unchanged and the message carries the exception text |
| YamlUtil.BadKeyReported | core/common/YamlUtil.cpp:36-102 | a map with a non-scalar key is reported as a failure and leaves the result unchanged |
| Pipeline.MergeModule | core/pipeline/Pipeline.cpp:382-392 | merging a module into a compatible section keeps it compatible with further merges of the same kind |
| Pipeline.MergeKeys | core/pipeline/Pipeline.cpp:381-393 | merging any run of keys keeps the destination able to take the rest |
| Pipeline.MergeKeysMembers | core/pipeline/Pipeline.cpp:381-393 | after the merge, each array or object member of the source is merged into its section; every other section is exactly as before |
| Pipeline.MergeKeysNull | core/pipeline/Pipeline.cpp:381-393 | the destination stays null exactly when it was null and the source has no array or object member |
| Pipeline.MergeGoPipelineModules | core/pipeline/Pipeline.cpp:380-394 | an array member appends its items to the section (an empty array leaves it as it was); an object member writes its members over the section's, keeping the others |
| Pipeline.AppendItems | core/pipeline/Pipeline.cpp:383-386 | the append loop computes MergeModule for an array |
| Pipeline.PutAll | core/pipeline/Pipeline.cpp:388-391 | writing members keeps a null-or-object section |
| Pipeline.PutAllMembers | core/pipeline/Pipeline.cpp:388-391 | after writing a non-empty run of members, the section is an object whose keys are the written keys and its earlier keys; written keys hold the new values, the others the old ones |
| Pipeline.PutMembers | core/pipeline/Pipeline.cpp:388-391 | the member loop computes MergeModule for an object |
| Pipeline.PutEach | core/pipeline/Pipeline.cpp:389-391 | writing the members in a given key order computes PutAll |
| Pipeline.PutAllIsMerge | core/pipeline/Pipeline.cpp:388-391 | writing every member, in any order, is the object merge |
| Pipeline.PutAllCovers | core/pipeline/Pipeline.cpp:388-391 | writing a non-empty object's members gives the old members overridden by the new ones |
| Pipeline.MergeMember | core/pipeline/Pipeline.cpp:382-392 | one source member is merged into its section when it is an array or an object and skipped otherwise |
| Pipeline.MergeMembers | core/pipeline/Pipeline.cpp:381-393 | the loop over the source members computes MergeKeys |
| Pipeline.MergeGoPipeline | core/pipeline/Pipeline.cpp:380-394 | MergeGoPipeline computes MergeOf (see MergeGoPipelineModules) |
| Pipeline.PluginEntry | core/pipeline/Pipeline.cpp:397-400 | the entry holds exactly "type", the plugin's Type, and "detail", the plugin without Type |
| Pipeline.AddPluginToGoPipeline | core/pipeline/Pipeline.cpp:396-402 | the plugin's entry is appended to the end of the named section; every other section is unchanged |
| Pipeline.ExtendedGlobalParamsOf | core/pipeline/Pipeline.cpp:40-47 | a null pipeline stays null; otherwise every extended parameter is written into "global" and the other sections are unchanged |
| Pipeline.PutItemsUnnamed | core/pipeline/Pipeline.cpp:43-45 | iterating an array writes its items under the empty name, so only the last remains |
| Pipeline.AddExtendedGlobalParamToGoPipeline | core/pipeline/Pipeline.cpp:40-47 | the loop computes ExtendedGlobalParamsOf |
| Pipeline.CopyNativeGlobalParamToGoPipeline | core/pipeline/Pipeline.cpp:404-410 | a null pipeline stays null; otherwise "global" gets the two flags and keeps its other members, and the other sections are unchanged |
| Pipeline.PluginIdCounter.constructor | core/pipeline/Pipeline.cpp:71 | the counter starts at 0 |
| Pipeline.PluginIdCounter.GenNextPluginId | core/pipeline/Pipeline.cpp:461-464 | the counter moves on by one and the id is its new value |
| Pipeline.PluginIdCounter.GenNextPluginMeta | core/pipeline/Pipeline.cpp:466-476 | the counter moves on by one; plugin and node id are its new value and the child node id is the next value, or -1 for the last plugin |
| Pipeline.MetasChain | core/pipeline/Pipeline.cpp:466-476 | a plugin's child node id is the node id of the plugin built next, successive plugins get distinct ids, and no plugin is its own child |
| Pipeline.Send | core/pipeline/Pipeline.cpp:318-338 | every group is routed and every valid target is sent to, in order, even after a failure; the result is true exactly when every index was valid and every send succeeded |
| Pipeline.SendGroup | core/pipeline/Pipeline.cpp:321-335 | one group's targets, invalid ones skipped, all but the last receiving a copy |
| Pipeline.OnlyLastTargetMoves | core/pipeline/Pipeline.cpp:330-334 | only the last routed target receives the group itself, and a group gets at most one send per routed index |
| Pipeline.FlushBatch | core/pipeline/Pipeline.cpp:340-347 | every flusher is flushed, in order, even after a failure; the result is true exactly when all flushes succeed; then the timeout-flush records of this pipeline are cleared and those of every other pipeline kept |
| MachineInfo.RunEndMaximal | core/common/MachineInfoUtil.cpp:476 | the digit run strtoul reads is maximal: every character in it is a digit of the base and the one after it is not |
| MachineInfo.StrtoulReads | core/common/MachineInfoUtil.cpp:476 | strtoul never reads a '.', and it reads nothing exactly when the text does not start with a digit |
| MachineInfo.StrtoulPrefix | core/common/MachineInfoUtil.cpp:476 | cutting the text after the digits strtoul reads does not change its result |
| MachineInfo.NumericPiecesDotted | core/common/MachineInfoUtil.cpp:462-467 | a hostname's pieces are numeric exactly when the last is non-empty and the pieces form a dotted address |
| MachineInfo.ScanEmpty | core/common/MachineInfoUtil.cpp:474-487 | from any position, with k numbers already read, the scan reaches the end of the text exactly when the pieces of the rest have the dotted form for k numbers read |
| MachineInfo.ScanGoesOn | core/common/MachineInfoUtil.cpp:476-483 | past a number of at most 255 followed by '.', the rest has the dotted form exactly when the text after the dot has it with one more number read |
| MachineInfo.ScanStops | core/common/MachineInfoUtil.cpp:477-486 | where the number is too large, is not followed by '.' or exceeds 255, the number fits the bits left and runs to the end exactly when the pieces of the rest have the dotted form |
| MachineInfo.LastPieceEmpty | core/common/MachineInfoUtil.cpp:488 | the last piece is empty exactly when the text is empty or ends in '.' |
| MachineInfo.NumericHostnameScan | core/common/MachineInfoUtil.cpp:474-491 | a non-empty hostname is numeric exactly when the scan reaches its end and it does not end in '.' |
| MachineInfo.NumericHostnameDotted | core/common/MachineInfoUtil.cpp:462-467 | a hostname is numeric exactly when its pieces form an address of the four shapes a, a.b, a.b.c, a.b.c.d with the stated bit bounds and the last piece is non-empty |
| MachineInfo.IsDigitsDotsHostname | core/common/MachineInfoUtil.cpp:470-494 | the result is true exactly when the hostname is present, non-empty and not numeric in the glibc digits-and-dots sense |
| MachineInfo.ScanHostname | core/common/MachineInfoUtil.cpp:472-487 | the loop stops at the position the scan specification names |
| MachineInfo.ScanStep | core/common/MachineInfoUtil.cpp:476-483 | one loop step: past a number of at most 255 followed by '.', the scan reaches the end exactly when it does from the next piece with 8 fewer bits |
| MachineInfo.ScanStopsAt | core/common/MachineInfoUtil.cpp:477-486 | where the scan does not go past a dot it reaches the end exactly when the number fits the bits left and strtoul reads to the end |
| MachineInfo.ScanEnds | core/common/MachineInfoUtil.cpp:474-488 | at the end of the text, or with no address bits left, the scan reaches the end and the rest has the dotted form exactly when nothing is left |
| MachineInfo.ScanEmptyGoesOn | core/common/MachineInfoUtil.cpp:476-483 | the induction step of ScanEmpty past a number and a dot |
| MachineInfo.ScanEmptyStops | core/common/MachineInfoUtil.cpp:477-486 | the last step of ScanEmpty, where the scan stops at the number in front |
| MachineInfo.DottedPastNumber | core/common/MachineInfoUtil.cpp:476-483 | a text that starts with a number of at most 255 and a dot has the dotted form exactly when the text after the dot has it with one more number read |
| MachineInfo.DottedStops | core/common/MachineInfoUtil.cpp:477-486 | a text whose number does not go on past a dot has the dotted form exactly when that number fits the bits left and strtoul reads the whole text |
| MachineInfo.StrtoulShift | core/common/MachineInfoUtil.cpp:476 | strtoul called at a position of the hostname reads what it reads on the text from there on |
| MachineInfo.DecimalOctet | core/common/MachineInfoUtil.cpp:466 | the decimal string of a number up to 255 holds no dot and strtoul reads it whole back to at most 255 |
| MachineInfo.ScanConsumesDotted | core/common/MachineInfoUtil.cpp:472-487 | the scan from the start of the hostname with all 32 bits reaches its end exactly when its pieces have the dotted form |
| MachineInfo.DecimalConverts | core/common/MachineInfoUtil.cpp:476 | strtoul reads the decimal string of any number whole and gets the number back |
| MachineInfo.DottedQuadIsNumeric | core/common/MachineInfoUtil.cpp:466 | every dotted quad of decimal octets is numeric |
| MachineInfo.LetterNameIsNotNumeric | core/common/MachineInfoUtil.cpp:462-467 | a hostname holding a letter g to z other than x is never numeric |
| MachineInfo.StrtolDigits | core/common/MachineInfoUtil.cpp:378 | strtol's value of a digit run, clamped to LONG_MAX |
| MachineInfo.ReleaseVersions | core/common/MachineInfoUtil.cpp:373-382 | the loop collects exactly the values of the digit runs of the release, in order |
| MachineInfo.PackVersions | core/common/MachineInfoUtil.cpp:383-386 | the version packs the first four numbers, each taking three decimal places |
| MachineInfo.GetKernelInfo | core/common/MachineInfoUtil.cpp:365-391 | success exactly when uname succeeds; then the release is uname's and the version packs its first four numbers; on failure both outputs are unchanged |
| MachineInfo.PackOrder | core/common/MachineInfoUtil.cpp:383-386 | for components below 1000 the packed versions order exactly as the component lists do, and are equal exactly when the lists are |
| MachineInfo.Decimals | core/common/MachineInfoUtil.cpp:372-382 | one decimal string per component |
| MachineInfo.DottedReleaseRuns | core/common/MachineInfoUtil.cpp:373-382 | the numbers of a release written as decimals joined by '.' are read back exactly |
| MachineInfo.RunThenRest | core/common/MachineInfoUtil.cpp:377-381 | a digit run followed by a non-digit contributes its value, then the rest is scanned |
| MachineInfo.DigitPrefixThen | core/common/MachineInfoUtil.cpp:378 | strtol stops at the end of the digit run |
| MachineInfo.ParseEcsMeta | core/common/MachineInfoUtil.cpp:572-598 | success exactly when the document is a JSON object; failure leaves the metadata unchanged; it is valid exactly when it already was or all three identifiers are now non-empty |
| MachineInfo.ParseEcsMetaFields | core/common/MachineInfoUtil.cpp:580-593 | each of instance-id, owner-account-id and region-id is taken when it is a string and kept otherwise |
| MachineInfo.FetchEcsMetaSucceeds | core/common/MachineInfoUtil.cpp:613-685 | the fetch succeeds exactly when both requests succeed, the document is an object and all three identifiers are non-empty; success means valid metadata |
| MachineInfo.HostIdPriority | core/common/MachineInfoUtil.cpp:544-560 | the host id is the configured one when set, else the ECS instance id when the metadata is valid and names one, else the serial number when there is one, else the local id |
| MachineInfo.UpdateHostIdKeepsMetadata | core/common/MachineInfoUtil.cpp:544-560 | updating the host id never changes the metadata, nor a serial number already tried, nor a local id already set |
| MachineInfo.SerialReadOnce | core/common/MachineInfoUtil.cpp:688-698 | the serial number file is read at most once |
| MachineInfo.LocalIdSticky | core/common/MachineInfoUtil.cpp:700-704 | once a local host id is set, later calls keep it |
| MachineInfo.UpdateHostIdStable | core/common/MachineInfoUtil.cpp:544-560 | updating twice with the same configured id gives what updating once gives, once the chosen id is non-empty |
| MachineInfo.HostIdentifier.constructor | core/common/MachineInfoUtil.cpp:507-517 | the identifier fetches the ECS metadata and, when that succeeds, stores it and updates the host id; otherwise it keeps its initial state |
| MachineInfo.HostIdentifier.SetHostId | core/common/MachineInfoUtil.cpp:562-570 | the host id becomes the given one and nothing else changes |
| MachineInfo.HostIdentifier.GetSerialNumberFromEcsAssist | core/common/MachineInfoUtil.cpp:688-698 | the serial number is read from the file only on the first call; an unreadable file gives an empty number |
| MachineInfo.HostIdentifier.GetLocalHostId | core/common/MachineInfoUtil.cpp:700-733 | a set local id is kept; otherwise it is read from the host_id file, and a random UUID replaces a missing, unreadable or empty one |
| MachineInfo.HostIdentifier.UpdateHostId | core/common/MachineInfoUtil.cpp:544-560 | the state becomes UpdateHostIdOf (see HostIdPriority) |
| MachineInfo.HostIdentifier.UpdateEcsMetaAndHostId | core/common/MachineInfoUtil.cpp:519-532 | a changed instance id stores the new metadata, updates the host id and reports true; the same instance id changes nothing and reports false |
| Strings.NatToStringRoundTrip | core/pipeline/Pipeline.cpp:463 | the decimal text `std::to_string` gives for a non-negative number reads back as that number |
| Strings.IntToStringInjective | core/pipeline/Pipeline.cpp:475 | different counter values give different id texts, including -1 |
| Strings.StollOfDecimal | core/prometheus/schedulers/ScrapeConfig.cpp:80 | `stoll` reads a decimal count up to LLONG_MAX back as that count |
| Strings.SortedKeysSorted | core/prometheus/schedulers/ScrapeConfig.cpp:116-134 | member names and `std::map` keys are visited in strictly increasing order, each exactly once |
| Strings.SplitJoin | core/prometheus/labels/TextParser.cpp:207-209 | splitting on ',' gives back the pieces a label text was joined from |
| Strings.TrimLeft | core/prometheus/labels/TextParser.cpp:208 | trimming removes exactly the leading run of the trimmed character and keeps the rest |
| MachineInfo.Strtoul | core/common/MachineInfoUtil.cpp:476 | `strtoul` with base 0 reads no more than the text |
| MachineInfo.LetterStopsConversion | core/common/MachineInfoUtil.cpp:476 | `strtoul` stops before a letter g to z other than x |

## Left out

- Goroutines, channels, `select` and the timers of `meta_collector.go`: the background loop is a sequential step machine (arrival on either queue, idle timeout, stop) and each queue is a bounded sequence.
- MetaCollector.Collector.Send: the three-second wait of `send` on a full queue is modelled as dropping the record at once, since wall-clock time is not modelled.
- MetaCollector.GenKeyOfConcatenation: the md5 hash and its hexadecimal formatting are a parameter; only the concatenation they are applied to is modelled.
- `protocol.SetLogTime` and `collector.AddRawLog` are foreign sinks: the model records the converted logs handed to `AddRawLog`, with the time truncated modulo 2^32 as the `uint32` conversion does.
- MetaCollector.ConvertPipelineEventToLog: the event's contents are a sequence and the converted log keeps its order; Go's `Contents.Iterator()` fixes no order, so the order of the converted contents is one possible order, not the only one.
- The k8smeta constants (`POD` = "pod", `SERVICE` = "service", the link separator "->") and the Prometheus and reserved-key constants (`job`, `instance`, `Basic `, `Bearer`, `__file_offset__`) come from headers that are not part of this model; their values are taken as Prometheus and the agent spell them. So do the delimiter processor's member defaults in `DefaultSettings` (quote '"', `AllowingShortenedFields` true, overflowed-fields treatment extend), which ProcessorParseDelimiterNative.h sets.
- DelimiterParser.SplitString: computes the corrected split, whose `strstr` search stops at `endIdx`; the search as written at core/processor/ProcessorParseDelimiterNative.cpp:307 can run past the trimmed span (see Findings, where DelimiterSplit.SplitAsWrittenLeavesSpan models it), so the model does not capture the columns the source produces in that case.
- DelimiterParser.Processor.ProcessEvent: runs on the corrected split above (through EventOutcome), so when `strstr` finds a separator past `endIdx` the source's columns (and, without auto-extend, its extra wrapped-length column) differ from the model's.
- DelimiterParser.Configure: accepts a present but empty `SourceKey` or `Separator`; `GetMandatoryStringParam` (ParamExtractor) is not part of this model, so whether it rejects an empty string is not known here, and the branch that gives an empty separator the separator character '\t' is modelled as written.
- The quote-aware delimiter state machine (`DelimiterModeFsmParser`) is not part of this model: its result, a success flag and a column list, is a parameter.
- StringView and SourceBuffer memory, metric counters other than those `ProcessEvent` and `AddLog` update, alarms and logging.
- DelimiterParser.Processor.Init: the settings are committed only when `Init` succeeds; the source assigns its fields one by one, so a failed `Init` leaves some of them changed, which the pipeline never uses because it discards the processor.
- RE2 matching and `stod` in the text parser are parameters (a capture function and a partial conversion); double values, NaN and infinities are not modelled beyond the "not NaN" flag.
- `TrimString` (StringTools is not part of this model): its default trims spaces at both ends, and the two-character form trims the given characters; this is how its call sites use it.
- yaml-cpp's loader and its `convert<T>::decode` are parameters (partial decoders); floating-point scalars stay opaque values.
- ScrapeConfig: `ReadFile`, `sdk::Base64Enconde` and `DurationToSecond` are parameters; jsoncpp's formatting of doubles in `asString` is a parameter.
- ScrapeConfig.ScrapeSizeWithUnit: the model multiplies with unbounded integers, so the int64 overflow of a large count times 1024^6 is not modelled (the count is bounded by `LLONG_MAX` only where `stoll` is).
- `Pipeline::Init`, `Start`, `Stop`, `LoadGoPipelines` and `RemoveProcessQueue` are plugin wiring; the router and the flushers are parameters of `Send` and `FlushBatch`.
- The two one-line predicates of `core/pipeline/Pipeline.h` (`IsFlushingThroughGoPipeline`, `ShouldAddPluginToGoPipelineWithInput`) are not modelled.
- Pipeline.PluginIdCounter.GenNextPluginMeta: the 32-bit width of `mPluginID` and of `childNodeID` is not modelled; the counter is an unbounded integer.
- Pipeline.MergeGoPipeline: requires the source to be null or an object, which is what its callers pass (a Go pipeline configuration); a scalar source, which the loop would leave unvisited, and an array source, whose items jsoncpp names "" and merges into `dst[""]`, are not modelled. It also requires each section it merges into to be null or of the same kind, where jsoncpp's `append` and `operator[]` would otherwise throw `Json::LogicError`.
- Pipeline.AddPluginToGoPipeline: requires the plugin to be null or an object, the destination to be null or an object and its named section to be null or an array; on other values jsoncpp's `removeMember`, `operator[]` and `append` at core/pipeline/Pipeline.cpp:398-401 throw `Json::LogicError`, which is not modelled.
- Pipeline.FlushBatch: `TimeoutFlushManager` is not part of this model; its records are a map from pipeline name to the pipeline's pending timeout records, and `ClearRecords(mName)` removes this pipeline's entry.
- `strtoul` is modelled for digit-only decimal, octal ("0" prefix) and hexadecimal ("0x" prefix) components; leading white space, signs and `ERANGE` are not.
- MachineInfo.GetKernelInfo: `strtol` clamps each run to `LONG_MAX`, but the int64 overflow of the packed version is not modelled; the release is taken up to its terminating NUL, so the `maxP` bound of the `utsname` buffer is not modelled.
- `IsDigitsDotsHostname` returns true for a hostname that is safe to resolve; its name reads the other way, and its caller at core/common/MachineInfoUtil.cpp:209 relies on that.
- MachineInfo.HostIdentifier.constructor: the initial host id is a parameter (MachineInfoUtil.h is not part of this model); the enterprise path (`getECSMetaFromFile`), `DumpECSMeta` and the stored metadata text are not modelled.
- curl and rapidjson in `FetchECSMeta` are a parameter: the response is absent when a request fails, and otherwise the parsed document or nothing when it does not parse.
- Writing the host_id file after generating a random id, the Windows branches, `getifaddrs`/`getaddrinfo`/`ioctl`/`gethostname`, and `shared_mutex` locking.

## Findings

| source | as written | input that shows it | evidently intended | confidence | as-written member | corrected member |
|---|---|---|---|---|---|---|
| core/processor/ProcessorParseDelimiterNative.cpp:305-308 | `strstr` searches the whole remaining buffer, past `endIdx`, because a StringView has no NUL at the end of the trimmed span | the line "a  bc\r  " trimmed to [0, 5) with separator "  " and two keys: the second column becomes [3, 6), reaching into the trimmed tail, and without auto-extend a third column starts at 6 with length 5 - 6, which wraps in `size_t` | the search stops at `endIdx`, giving the columns "a" and "bc" inside the span | not executed; the trace follows the code line by line | DelimiterSplit.SplitAsWrittenLeavesSpan | DelimiterSplit.SplitColumnsTileSpan |
