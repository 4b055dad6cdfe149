# Runway: verified models of the planner, the replay guard, the evidence checks and the migrations

A Dafny model of the parts of Runway whose correctness rests on more than one function. Each loop of the
original is a method proved equal to a specification function (or to a declarative predicate), and the
promises of the code are lemmas about those functions, for all inputs or all runs. What a specification
function reads, picks or refuses is stated once more on its own, by the keys, limits and fields written out, so
that no law rests on a definition alone.

| Files | Part of Runway |
|---|---|
| `Makespan`, `Tightness`, `ShardPlanner` | the CI shard planner (`scripts/pytest_shard.py`) |
| `ReplayProtection`, `DecimalTimestamps` | skew check, HMAC check and single-use receipts (`app/core/security.py`, `app/core/replay.py`) |
| `TtlCache` | the expiring, least-recently-used cache (`app/core/cache.py`) |
| `Json`, `UsageAudit`, `AuditRecords`, `AuditVerifier`, `AuditMeaning` | the usage audit and the checks made of its report |
| `StructureCounters`, `ListBoundary` | the cloud structure and list counters and the checks made of them |
| `ChatEvidence`, `ChatVerifier` | the chat fixture observation, an attempt step by step, and the checks made of its report |
| `WindowDedup`, `SidecarIds`, `SidecarMerge`, `OpenCodeMigration`, `CollapseAccounts`, `AntigravityMerge` | migrations over uniquely keyed tables |
| `PyString`, `FailingPrefix` | the "collection failing" marker of a card detail (`app/core/utils.py`) |
| `DnsProbe` | the DNS question parser and answer builder, against RFC 1035 |
| `Sorting` | Python's stable sort |

Some findings are results in their own right:

- The receipt lifetime of 360 s is exactly 300 s + 60 s. It excludes replay of an envelope when the claim reads
  the clock and commits at the instant of the skew check, and at no larger bounds on the delay before and the lag
  after that reading; the exact requirement is a lifetime of at least 360 s plus both
  (`AtMostOnceExactlyWhen`, `CodeLifetimeIsTight`).
- `with_failing_prefix` replaces an earlier marker exactly when the earlier reason has no line break inside
  (after stripping); otherwise markers pile up.
- Under the shared key the timestamp is signed without a separator, so that one signed message can be read with
  several timestamps. Single use per signature needs the lifetime to cover that shift too: for decimal timestamps
  of ten digits 361 s rather than 360 s (`DecimalTimestamps.OncePerSignatureExactlyWhen`,
  `MovedDigitsAcceptedTwice`). Device keys bind the timestamp, and need no more than for envelopes.
- `normalize_sidecar_id` is idempotent exactly on names whose first label does not end in white space
  (`"a .b"` becomes `"a "`, then `"a"`). Where such a name becomes another collected name, `_merge_windows`
  can fold a row into one that it has deleted already, and loses its totals (`TotalsCanBeLost`). It loses
  nothing, in any table, exactly when there is no such name.
- `_merge_windows` folds rows of different quota series of one grain together, because its key leaves the
  series columns out, exactly when some row under another name is not of the series of its owner. The table's
  own eight-column constraint survives all the same.
- Below a quarter of the window duration jitter does no harm to the clustering; from a quarter on it can.
- The audit's sums are unbounded while the verifier's integers end at 2^63 - 1: a report is accepted exactly
  when its two sums fit.
- `dns_question` cannot tell a dot inside a label from a dot between labels, and does not enforce the
  255-octet limit of section 2.3.4 of RFC 1035.
- `scripts/collapse_default_account_events.py` and `scripts/merge_antigravity_accounts.py` reason with the
  three-column key (provider, account, event); the model does the same. On a database that already has the
  two-column index of `app/models/db_usage.py:90` there are no pairs for them to find.

## Model

| member | source | states |
|---|---|---|
| ShardPlanner.PlanShards | scripts/pytest_shard.py:132-152 | raises below one shard; otherwise the loop over modules (heaviest first, names breaking ties) computes the greedy schedule on which every result below rests |
| ShardPlanner.PlacementStep | scripts/pytest_shard.py:148-151 | one round gives the next module to the lightest shard and leaves the others alone |
| Makespan.Lightest | scripts/pytest_shard.py:149 | the target is a lightest shard, and the first of them |
| ShardPlanner.PlanWithinFourThirds | scripts/pytest_shard.py:137-152 | Graham's bound: no shard of the plan takes longer than 4/3 - 1/(3m) times the longest shard of any other way to deal out the same modules |
| Makespan.HeaviestFirstBound | scripts/pytest_shard.py:137-152 | the same bound for non-negative weights in descending order on any number of machines |
| Makespan.ListBound | scripts/pytest_shard.py:148-151 | in any order of the jobs, the greedy schedule stays within 2 - 1/m of any other |
| Makespan.LargeJobsFit | scripts/pytest_shard.py:148-151 | jobs larger than a third of another schedule's length fit within that length |
| Tightness.HeaviestFirstBoundIsMet | scripts/pytest_shard.py:137-152 | the 4/3 - 1/(3m) bound is met exactly by some suite for every number m of shards: no smaller ratio holds |
| Makespan.GapAtMostLastJob | scripts/pytest_shard.py:148-151 | one machine is ahead of another by no more than the last job it was given |
| Makespan.LoadsAddUp | scripts/pytest_shard.py:150-151 | the machines together carry exactly the total weight |
| ShardPlanner.ShardsApartByOneModule | scripts/pytest_shard.py:148-151 | no shard is ahead of another by more than the last module placed on it |
| ShardPlanner.PlanPartitions | scripts/pytest_shard.py:146-152 | the plan holds every module of the suite exactly as often as the list does |
| ShardPlanner.PlanIgnoresOrder | scripts/pytest_shard.py:137-142 | the plan depends on the modules and on the duration table as a mapping, not on their order: all CI jobs agree |
| ShardPlanner.WeightIgnoresRowOrder | scripts/pytest_shard.py:120-129 | so does the weight of a module, the median fallback included |
| ShardPlanner.FallbackIsMedian | scripts/pytest_shard.py:120-129 | the fallback weight lies between the lower and the upper half of the measured weights |
| ShardPlanner.MeasuredWeight | scripts/pytest_shard.py:148 | a module with a row in the table weighs what was measured |
| ShardPlanner.UnmeasuredWeight | scripts/pytest_shard.py:120-129 | a module without one weighs as much as the middle of the measured durations in ascending order, or half as much as the middle two; 1.0 with nothing measured |
| ShardPlanner.HeavierThenByName | scripts/pytest_shard.py:148 | of two modules the heavier is placed first, and of equally heavy ones that with the smaller name, character by character |
| ShardPlanner.FlatWithoutDurations | scripts/pytest_shard.py:107-112 | with nothing measured no shard has two modules more than another |
| ShardPlanner.EstimateOfMeasured | scripts/pytest_shard.py:208-211 | the estimate of measured modules is the sum of their durations |
| ShardPlanner.EstimatesAddUp | scripts/pytest_shard.py:208-211 | the estimates of the shards add up to the estimate of the suite |
| ShardPlanner.Deselected | scripts/pytest_shard.py:163-173 | deselected are exactly the modules outside the shard |
| ShardPlanner.OneShardEach | scripts/pytest_shard.py:163-173 | every module of a distinct list sits in exactly one shard of a partition |
| ShardPlanner.KeptExactlyWhen | scripts/pytest_shard.py:163-173 | under prefix deselection a test is kept by its module's shard only, and exactly when every module whose path is a prefix of its id is there too |
| ShardPlanner.EveryTestRunsOnce | scripts/pytest_shard.py:163-173 | if no module path is a prefix of another, every test runs in exactly one shard of the plan |
| ShardPlanner.OneJobRunsEachTest | scripts/pytest_shard.py:155-173 | of all shard ids, which count from 1, exactly one has a job that runs the test, and it owns the test's module |
| ReplayProtection.ReceiptStore.ClaimSignature | app/core/replay.py:26-54 | one transaction: expired receipts go and the new one is inserted, or the table stays as it was with 409 or 503 |
| ReplayProtection.ReceiveBody | app/core/security.py:336-341 | the body arrives whole, or 413 exactly when it is longer than 8 MiB, however it is chunked |
| ReplayProtection.PreFlight | app/core/security.py:275-357 | passes exactly the authentic requests, and answers any other with the first failing check in the documented order |
| ReplayProtection.ValidateIngestAuth | app/core/security.py:242-362 | an unauthentic request leaves the receipts alone; an authentic one claims once, and its body is returned only if the claim is granted |
| ReplayProtection.VerifyConfigSignature | app/core/security.py:365-416 | redacted exactly when unsigned or not configured; an authentic request in the window claims once and is verified exactly if the claim is granted; any other gets the error of the first check it fails and changes no receipt |
| ReplayProtection.NoReplay | app/core/security.py:303-359 | over every interleaved run with a non-decreasing clock, no envelope is accepted twice if receipts live at least 360 s plus the delay between check and claim plus the lag between a claim's clock reading and its commit |
| ReplayProtection.AtMostOnceExactlyWhen | app/core/replay.py:17-46 | that lifetime is the exact requirement: at most once in all runs of requests that pass the pre-flight if and only if it is met |
| ReplayProtection.ReplayWhenReceiptsDieEarly | app/core/replay.py:33-46 | for every shorter lifetime, and any authentic request, a run of requests that pass the pre-flight which accepts it twice |
| ReplayProtection.CodeLifetimeIsTight | app/core/replay.py:17 | the lifetime in the code suffices exactly when claims read the clock and commit at the instant of their check |
| ReplayProtection.OncePerDeviceSignatureExactlyWhen | app/core/security.py:345-359 | a signature under a device key is accepted at most once, whatever timestamps it comes with, if and only if that same lifetime is met |
| ReplayProtection.OncePerSharedSignatureExactlyWhen | app/core/security.py:343-359 | a signature under the shared key is, if and only if receipts live 360 s plus the delay plus the shift between any two readings of one message as timestamp and rest |
| DecimalTimestamps.OncePerSignatureExactlyWhen | app/core/security.py:290-359 | for plain decimal timestamps of ten digits the lifetime needed is 361 s plus the delay, less the last digit that fits into a body |
| DecimalTimestamps.ReadingsAreClose | app/core/security.py:290-344 | two readings of one message then differ behind the point only, by less than a second |
| ReplayProtection.MovedDigitsAcceptedTwice | app/core/security.py:344 | with the lifetime in the code, any digits that can move from the body into the timestamp give two authentic requests under one signature that are both accepted |
| ReplayProtection.IssuedIsReading | app/core/security.py:344-359 | what passes under the shared key is a reading of the signed message |
| ReplayProtection.DeviceMessageBinds | app/services/sidecar_devices.py:131-133 | a signed device message determines device and timestamp, and, with purposes that hold no bar, purpose and body |
| ReplayProtection.DeviceSignatureCoversBody | app/core/security.py:343-357 | two requests that pass under one device signature have the same device, timestamp, purpose and body |
| ReplayProtection.DeviceSignatureCoversQuery | app/core/security.py:398-410 | two requests for the configuration that do have the same query |
| ReplayProtection.PurposesAreApart | app/services/sidecar_devices.py:131-133 | what a device signed for its configuration passes for no other purpose |
| ReplayProtection.DevicePassesExactlyWhen | app/core/security.py:303-357 | a well-formed device request passes exactly when it signed "DEVICEv1", device, timestamp, purpose and body, with bars between them, and its timestamp is at most 300 s old and 60 s ahead |
| ReplayProtection.SharedPassesExactlyWhen | app/core/security.py:303-357 | without a device, exactly when it signed timestamp and body under the shared key |
| ReplayProtection.ConfigPassesExactlyWhen | app/core/security.py:383-410 | a request for the configuration, exactly when it signed the query in the same two ways |
| ReplayProtection.FirstDefectIsReported | app/core/security.py:275-357 | of nine defects, in this order and each with its own status, the first is reported |
| ReplayProtection.FirstConfigDefectIsReported | app/core/security.py:365-412 | so it is of requests for the configuration, which are redacted without headers or key |
| ReplayProtection.ClaimMeans | app/core/replay.py:26-54 | a claim is refused with 503 exactly without storage and with 409 exactly on a live receipt, which changes nothing; granted, it leaves the live receipts and its own |
| ReplayProtection.RunKeepsInv | app/core/replay.py:41-47 | after every run, receipts outlive the instants at which their timestamps still pass, and each was written by an acceptance |
| ReplayProtection.RefusedExactlyAfterRecentAcceptance | app/core/replay.py:48-49 | a claim is refused as a replay exactly when its signature was accepted no longer than the lifetime ago |
| TtlCache.Cache.Get | app/core/cache.py:27-43 | a hit is returned and moves to the end; an expired entry is dropped and misses; a missing key changes nothing |
| TtlCache.Cache.Set | app/core/cache.py:46-56 | expired entries are reaped, the entry becomes the newest, and the oldest ones beyond 256 are evicted |
| TtlCache.Cache.Clear | app/core/cache.py:59-64 | the store is empty |
| TtlCache.RunIsValid | app/core/cache.py:55-56 | after every run keys are distinct and there are at most 256 |
| TtlCache.HitIsCurrent | app/core/cache.py:35-43 | a hit returns the last value set, unexpired and not cleared since |
| TtlCache.LiveKeyHits | app/core/cache.py:42-56 | an unexpired key is a hit while fewer than 256 distinct other keys were used since its last use |
| TtlCache.HitLeavesRoom | app/core/cache.py:55-56 | after a hit, fewer than 256 of the keys used since can be unexpired |
| TtlCache.HitExactlyWhen | app/core/cache.py:42-56 | if the keys used since are unexpired, a key the unbounded map remembers is a hit exactly when there are fewer than 256 of them |
| TtlCache.StoreIsCurrent | app/core/cache.py:53 | nothing in the store differs from what an unbounded map remembers |
| TtlCache.RunKeepsRank | app/core/cache.py:42-56 | the recency invariant behind these results holds after every run, for every key |
| TtlCache.SetReaps | app/core/cache.py:49-53 | a write leaves nothing expired behind |
| TtlCache.GetTakesExpired | app/core/cache.py:36-43 | after any calls, asking for a key takes it out when it has expired and leaves every other entry alone |
| UsageAudit.AuditMessages | scripts/audit_claude_usage.py:54-187 | the loop raises beyond 100,000 records and otherwise returns the report of the fold |
| UsageAudit.AuditAssistant | scripts/audit_claude_usage.py:90-120 | one assistant record: subagent, no identity, unusable usage, repeated or new |
| UsageAudit.AuditResult | scripts/audit_claude_usage.py:121-159 | one result record: both series of observations, their falls and the diagnostics |
| UsageAudit.ReadModelCounters | scripts/audit_claude_usage.py:41-51 | the sum over all models, or nothing if there is none or one is unreadable |
| AuditRecords.AssistantRecordMeans | scripts/audit_claude_usage.py:90-120 | by their keys and limits, which assistant records belong to a subagent, lack an identity, lack usable counters, or are a message with these four counters |
| AuditRecords.ResultRecordMeans | scripts/audit_claude_usage.py:121-159 | when a result names an error, and when each of its two readings is missing, invalid, or the counters under the four keys (those of all models summed field by field) |
| AuditRecords.OtherRecordMeans | scripts/audit_claude_usage.py:83-161 | which records are ignored, and which are unsupported |
| AuditRecords.ModelUsageIs | scripts/audit_claude_usage.py:41-51 | model usage is read exactly when there is a model and every one has the four counters |
| AuditRecords.OneMessageIsReported | scripts/audit_claude_usage.py:162-187 | a message alone is reported with its input, cache read and cache creation, each in its place, and a clean status |
| AuditRecords.OneResultIsReported | scripts/audit_claude_usage.py:128-159 | a result alone is reported with both its readings |
| AuditRecords.FirstSumByField | scripts/audit_claude_usage.py:164-169 | each field of the aggregate is its own sum over the first usable record of each identifier |
| AuditRecords.ConflictsByField | scripts/audit_claude_usage.py:105-114 | identifiers conflict exactly on input, cache read or cache creation |
| AuditRecords.DiagnosticMeaning | scripts/audit_claude_usage.py:83-161 | each diagnostic that comes of single records is reported exactly when some record gives cause for it |
| AuditRecords.ComparisonMeaning | scripts/audit_claude_usage.py:105-171 | conflict, divergence of outputs and lack of observations are reported exactly when there is one |
| AuditMeaning.OrderDoesNotMatter | scripts/audit_claude_usage.py:54-60 | neither first nor last wins: permuting the records changes nothing but the two last observations and the two counts of falls |
| AuditMeaning.ReportMeaning | scripts/audit_claude_usage.py:162-187 | every count is the number of records, identifiers or conflicting identifiers it names; the input/cache aggregate is the sum over distinct identifiers exactly when every record outside subagents is usable and no identifier reports two inputs |
| AuditMeaning.StatusMeaning | scripts/audit_claude_usage.py:170-179 | the status is clean exactly when no record gave cause for doubt, no identifier conflicts and something was observed |
| AuditMeaning.TracksMean | scripts/audit_claude_usage.py:128-159 | the last observation is that of the last result, and falls are the results in which some counter is below the result just before |
| AuditMeaning.AcceptedExactlyWhen | scripts/verify_claude_cloud.py:129-173 | the verifier accepts a report exactly when the sum over distinct identifiers and the last sum over models are below 2^63; the bounds across counts always hold |
| AuditVerifier.CountsAreAccepted | scripts/verify_claude_cloud.py:259-267 | counts are in range and bounded by one another and by the number of events |
| AuditVerifier.TrackIsAccepted | scripts/verify_claude_cloud.py:161-168 | falls are below the number of observations, and in a clean report an observed series still has its last observation |
| AuditVerifier.TrackChangesAreNoticed | scripts/verify_claude_cloud.py:147-168 | refused are readings without a count, too many falls, counters out of range, and clean reports without a last reading |
| AuditVerifier.ReportChangesAreNoticed | scripts/verify_claude_cloud.py:129-168 | and aggregates out of range, and either track that is refused |
| AuditVerifier.HugeCountsAreNoticed | scripts/verify_claude_cloud.py:150-153 | and any count from 2^63 on |
| AuditVerifier.CountChangesAreNoticed | scripts/verify_claude_cloud.py:259-267 | counts above what they are a part of are refused |
| AuditVerifier.FoldKeeps | scripts/audit_claude_usage.py:83-161 | the invariants of the fold that these rest on |
| AuditMeaning.NotEveryReportIsAccepted | scripts/verify_claude_cloud.py:111-112 | two messages with counters in range whose report the verifier refuses |
| StructureCounters.Structure.constructor | scripts/claude_cloud_structure.py:90-102 | an empty report counts no event |
| StructureCounters.Structure.Observe | scripts/claude_cloud_structure.py:121-141 | after any events, every counter at every location is the number of events it stands for |
| StructureCounters.CategoryKeepsName | scripts/claude_cloud_structure.py:86-138 | a known type string is counted under its own name, any other as "other" |
| StructureCounters.TypesMean | scripts/claude_cloud_structure.py:105-129 | at each of the nine places, by the keys that lead there, a type is counted as often as the value has it |
| StructureCounters.CategoriesMean | scripts/claude_cloud_structure.py:130-141 | and a category as often as an object calls itself so, or fails to |
| StructureCounters.FieldsMean | scripts/claude_cloud_structure.py:139-140 | and a field as often as it is there |
| StructureCounters.ExactIsAccepted | scripts/verify_claude_cloud.py:176-200 | such counters pass the verifier exactly when there are at most 150 events |
| StructureCounters.MissingBelow | scripts/verify_claude_cloud.py:195-200 | a nested value is missing in as many events as its parent lacks the field |
| StructureCounters.RowIsAccepted | scripts/verify_claude_cloud.py:182-193 | types and categories each add up to the events, and objects, fields and categories agree |
| StructureCounters.TypeChangesAreNoticed | scripts/verify_claude_cloud.py:182-188 | an accepted row is refused when the count of a type is changed by itself |
| StructureCounters.CategoryChangesAreNoticed | scripts/verify_claude_cloud.py:182-193 | or that of a category |
| StructureCounters.MovesAreNoticed | scripts/verify_claude_cloud.py:187-193 | and when events are moved between objects and other values, or into or out of the categories that stand for a missing type and for no object |
| StructureCounters.FieldChangesAreNoticed | scripts/verify_claude_cloud.py:190-193 | or that of the type field, or any that exceeds the objects |
| StructureCounters.NestedChangesAreNoticed | scripts/verify_claude_cloud.py:195-200 | a field on a path is compared with what is missing below it |
| ListBoundary.ObserveListBoundary | scripts/claude_cloud_list_boundary.py:36-107 | refuses a key that is not 32 bytes; otherwise every field says what it should of the payload, duplicates being counted by identifier |
| ListBoundary.DistinctDigests | scripts/claude_cloud_list_boundary.py:99 | counting distinct digests counts distinct identifiers |
| ListBoundary.KindCount | scripts/claude_cloud_list_boundary.py:54-61 | a kind is counted as often as an entry, or its identifier, is of it |
| ListBoundary.ValidCount | scripts/claude_cloud_list_boundary.py:60-63 | valid identifiers are counted as often as an entry has one of 1 to 128 letters, digits, underscores and hyphens |
| ListBoundary.ValidNames | scripts/claude_cloud_list_boundary.py:60-63 | the valid identifiers are those that entries have |
| ListBoundary.SeenCount | scripts/claude_cloud_list_boundary.py:100 | identifiers met before are counted as often as an entry has one whose digest was kept |
| ListBoundary.CursorMeans | scripts/claude_cloud_list_boundary.py:64-76 | when the cursor is missing, null, empty, or usable |
| ListBoundary.MoreMeans | scripts/claude_cloud_list_boundary.py:77-86 | whether the provider says that there is more |
| ListBoundary.RowsMean | scripts/claude_cloud_list_boundary.py:47-52 | looked at are the first twenty entries of a list under "data" |
| ListBoundary.ObservationIsAccepted | scripts/verify_claude_cloud.py:542-599 | every observation passes the verifier exactly when the number of entries fits 63 bits |
| ListBoundary.CountChangesAreNoticed | scripts/verify_claude_cloud.py:560-583 | an accepted observation is refused when one counter is changed out of step with the others |
| ListBoundary.FewerStringsAreNoticed | scripts/verify_claude_cloud.py:582 | and when fewer strings than valid identifiers are left |
| ListBoundary.FlagChangesAreNoticed | scripts/verify_claude_cloud.py:574-598 | and when a flag or a kind is |
| ChatEvidence.ObserveConversation | scripts/claude_chat_evidence.py:111-142 | observes exactly the lists of at most 500 objects, and every counter of the result is the number of rows it stands for |
| ChatEvidence.ObserveScope | scripts/claude_chat_evidence.py:101-108 | one more row is counted in every histogram of a scope |
| ChatEvidence.ObserveIdentity | scripts/claude_chat_evidence.py:127-140 | present, missing and invalid identities are counted, and duplicates are what exceeds the distinct canonical ones |
| ChatEvidence.ScopeMeans | scripts/claude_chat_evidence.py:74-108 | each counter of a scope is the number of rows whose usage, or token count, is of the kind it names, by key, sign and size |
| ChatEvidence.SupportedMeans | scripts/claude_chat_evidence.py:114-119 | observed are lists of no more than five hundred objects |
| ChatEvidence.RolesMean | scripts/claude_chat_evidence.py:125-126 | human, assistant and other senders are counted apart |
| ChatEvidence.IdentityMeans | scripts/claude_chat_evidence.py:127-136 | which rows have no identity, a bad one, or a known one |
| ChatVerifier.ConversationIsAccepted | scripts/verify_claude_chat_fixture.py:96-146 | an observed conversation meets every histogram and cross-count demand |
| ChatVerifier.MissingWithoutUsage | scripts/verify_claude_chat_fixture.py:108-111 | every field is missing at least as often as there is no usage object |
| ChatVerifier.EveryAttemptIsAccepted | scripts/verify_claude_chat_fixture.py:116-168 | whatever replies and failures an attempt meets, its report is accepted exactly when every reply had a status between 100 and 599 |
| ChatVerifier.CountChangesAreNoticed | scripts/verify_claude_chat_fixture.py:124-146 | an accepted report is refused when one of its counters is changed by itself |
| ChatVerifier.FlagChangesAreNoticed | scripts/verify_claude_chat_fixture.py:147-168 | and when flags, stage and outcome do not go together |
| ChatVerifier.ScopeChangesAreNoticed | scripts/verify_claude_chat_fixture.py:102-113 | scopes are refused for any of their histograms, and for fields in rows without usage |
| ChatVerifier.ShapeChangesAreNoticed | scripts/verify_claude_chat_fixture.py:96-106 | a count of shapes changed by itself is noticed, and so is another number of rows |
| ChatVerifier.CounterChangesAreNoticed | scripts/verify_claude_chat_fixture.py:96-113 | and a count of any other histogram |
| ChatVerifier.ScopesAreChecked | scripts/verify_claude_chat_fixture.py:141-146 | both scopes of a conversation are checked, and that of the messages has as many rows as there are messages |
| ChatVerifier.ConversationsAreNoticed | scripts/verify_claude_chat_fixture.py:151-162 | a conversation is reported exactly by an observed outcome |
| ChatVerifier.StepTracks | app/services/claude_chat_fixture.py:89-213 | stage, flags, requests and status stay in step through every action of an attempt |
| ChatVerifier.RequestsAreCounted | app/services/claude_chat_fixture.py:95-102 | after any actions, the requests are counted and the last status is on record |
| ChatVerifier.ChecksAreRecorded | app/services/claude_chat_fixture.py:131-171 | while an attempt lasts, its flags say which checks were passed, and its stage which was the last |
| ChatVerifier.EndingIsReported | app/services/claude_chat_fixture.py:174-212 | what an attempt reports is what was observed, if published; the reason and how far it came, if it failed; and for three reasons nothing but these and the requests |
| ChatVerifier.AttemptCanSucceed | app/services/claude_chat_fixture.py:122-171 | every supported conversation can be observed and published, with three requests answered with 200 |
| WindowDedup.ClusterByProximity | scripts/dedup_usage_windows.py:70-85 | the loop clusters the rows in order of their ends |
| WindowDedup.ClustersAreComponents | scripts/dedup_usage_windows.py:70-85 | two rows share a cluster exactly when a chain of rows connects them, each within the tolerance of the next |
| WindowDedup.RecoversWindows | scripts/dedup_usage_windows.py:73-95 | with jitter below a quarter of the duration and real ends a duration apart, the clusters are exactly the real windows |
| WindowDedup.QuarterIsTooMuch | scripts/dedup_usage_windows.py:95 | from a quarter on they need not be, for any duration |
| WindowDedup.RecoversExactlyWhen | scripts/dedup_usage_windows.py:73-95 | every jittered table is clustered into its real windows if and only if the jitter is below a quarter of the duration |
| WindowDedup.PlanGroupDeletions | scripts/dedup_usage_windows.py:88-123 | the loop over clusters, lone rows and in-progress clusters included, computes the plan |
| WindowDedup.DeletedExactlyWhen | scripts/dedup_usage_windows.py:99-121 | a row is deleted exactly when its cluster ends in the future or it does not share the start and end of the canonical row |
| WindowDedup.CanonicalRow | scripts/dedup_usage_windows.py:112-118 | the canonical row is a rollup with the most messages, or a row with the most if there is no rollup |
| WindowDedup.DeletedReadOff | scripts/dedup_usage_windows.py:99-121 | read off the rows: deleted are all rows of a cluster with one that ends in the future, and else those that do not share start and end with the first of the rollups, or without one of the rows, with the most messages |
| WindowDedup.SomeRowIsFirstBest | scripts/dedup_usage_windows.py:112-118 | and there always is such a row |
| WindowDedup.PlanListsOnce | scripts/dedup_usage_windows.py:88-123 | no row is listed for deletion more often than it is there |
| WindowDedup.PlanIsStable | scripts/dedup_usage_windows.py:88-123 | planned again on what is left, in any order and at any later time, nothing more is deleted |
| SidecarIds.IdempotentExactlyWhen | app/services/account_identity.py:9-20 | normalising twice is normalising once exactly when the first label does not end in white space |
| SidecarIds.NotAlwaysIdempotent | app/services/account_identity.py:9-20 | a name on which it is not |
| SidecarIds.BlankBehindLabel | app/services/account_identity.py:9-20 | with a blank behind its first label a name takes two applications |
| SidecarIds.AddressIsKept | app/services/account_identity.py:6-19 | four groups of one to three digits with dots between them stay as they are |
| SidecarIds.NameIsCut | app/services/account_identity.py:17-20 | any other name, stripped, becomes the part before its first dot, in small letters |
| SidecarMerge.MergeWindows | scripts/normalize_sidecar_ids.py:91-115 | the loop over row objects, mutated through the index, computes the merge and deletes the folded ones |
| SidecarMerge.BuildIndex | scripts/normalize_sidecar_ids.py:94 | the index leads from each key to the last row object that has it |
| SidecarMerge.UsageWindow.Absorb | scripts/normalize_sidecar_ids.py:108-112 | sums are added, and limit and percentage follow the row with more messages |
| SidecarMerge.BuiltMapping | scripts/normalize_sidecar_ids.py:75-77 | the mapping gives every collected id its normal form, and is settled (no target is itself replaced) exactly when normalising a collected normal form changes it no more |
| SidecarMerge.OwnerMeans | scripts/normalize_sidecar_ids.py:94-106 | the owner of a row under another name is the last row of its target key, or, without one, the first row sent there |
| SidecarMerge.TotalsConserved | scripts/normalize_sidecar_ids.py:103-114 | with a settled mapping all seven additive columns are conserved for every grain of renamed ids |
| SidecarMerge.NothingLostExactlyWhen | scripts/normalize_sidecar_ids.py:101-114 | with any mapping nothing is lost if no row is folded into a row folded before, and, where every row has messages, only then |
| SidecarMerge.ConservedExactlyWhen | scripts/normalize_sidecar_ids.py:75-114 | for any normalisation, no table over the collected names loses anything if and only if no collected normal form is changed by normalising it again |
| SidecarMerge.HostNamesConservedExactlyWhen | app/services/account_identity.py:9-20 | for host names: if and only if no collected name whose first label ends in white space becomes another collected name |
| SidecarMerge.TotalsCanBeLost | scripts/normalize_sidecar_ids.py:101-114 | rows under "x", "x " and "x .rest": the totals of the third are lost |
| SidecarMerge.SeriesKeptExactlyWhen | scripts/normalize_sidecar_ids.py:80-114 | every fold stays inside one quota series if and only if every row under another name is of the series of its owner |
| SidecarMerge.SeriesTotalsConserved | scripts/normalize_sidecar_ids.py:80-114 | then, with a settled mapping, all seven columns are conserved for every series of every grain |
| SidecarMerge.LimitComesFrom | scripts/normalize_sidecar_ids.py:108-112 | with a settled mapping a row that is left has limit and percentage of one row that it owns: the last that brought more messages than were gathered before it, or its own |
| SidecarMerge.HeaviestGivesLimit | scripts/normalize_sidecar_ids.py:108-110 | with one that has more messages than all the others together, they are that row's; a tie leaves them alone |
| SidecarMerge.FoldsIntoLiveRow | scripts/normalize_sidecar_ids.py:101-114 | with a settled mapping every fold goes into another row that is still there and has the target key |
| SidecarMerge.AllRenamed | scripts/normalize_sidecar_ids.py:97-105 | with any mapping, deleted are exactly the rows folded, and every row that is left carries the id the mapping gives it and its own series |
| SidecarMerge.FoldedCountsDeleted | scripts/normalize_sidecar_ids.py:113-115 | with any mapping, the number reported is the number of rows deleted |
| SidecarMerge.UniqueExactlyWhen | scripts/normalize_sidecar_ids.py:80-88 | with any mapping, one row per six-part key afterwards exactly when the rows under names that are kept had that before |
| SidecarMerge.UniqueThroughout | app/models/db_usage.py:197-207 | with any mapping, the table's own eight-column constraint holds whatever updates and deletions have been written so far |
| SidecarMerge.IdentityStaysUnique | app/models/db_usage.py:197-207 | and so it survives the merge |
| SidecarMerge.SecondRunQuietExactlyWhen | scripts/normalize_sidecar_ids.py:75-115 | a second run folds and retags nothing, for every table, if and only if normalising any collected name twice is normalising it once |
| SidecarMerge.SeriesAreFoldedTogether | scripts/normalize_sidecar_ids.py:80-88 | two quota series of one grain folded into one row, under a settled mapping |
| OpenCodeMigration.Migrate | scripts/reclassify_opencode_providers.py:257-363 | counts and rows are those of the run; only an applied run that changed something commits |
| OpenCodeMigration.MigrateRow | scripts/reclassify_opencode_providers.py:261-353 | one row: missing, already correct, corrected, or in conflict |
| OpenCodeMigration.CorrectInSavepoint | scripts/reclassify_opencode_providers.py:298-335 | the row is corrected, or, if the flush meets the unique index, exactly as it was |
| OpenCodeMigration.Flush | scripts/reclassify_opencode_providers.py:322-324 | a flush fails exactly when another row has the provider and event |
| OpenCodeMigration.UniqueThroughout | scripts/reclassify_hermes_pending.py:157-159 | no prefix of the loop breaks the unique index |
| OpenCodeMigration.SlotNeverVacated | scripts/reclassify_opencode_providers.py:262-268 | a row that sits where its event is sent never moves again |
| OpenCodeMigration.ConflictsRestored | scripts/reclassify_opencode_providers.py:324-334 | a row in conflict ends as it began |
| OpenCodeMigration.NoRowLost | scripts/reclassify_opencode_providers.py:261-353 | every row ends as it began or corrected, and loses its meters only as an error |
| OpenCodeMigration.EndsAsMapped | scripts/reclassify_opencode_providers.py:268-334 | after an applied run every known row has the provider, account and kind of the local database, unless another row ends in its place and it is as it began; only a failure changes meters and reason |
| OpenCodeMigration.CountsMean | scripts/reclassify_opencode_providers.py:261-353 | the three numbers are the rows that ended other than they began, those not known locally, and those known that are not as the local database has them |
| OpenCodeMigration.SecondRunChangesNothing | scripts/reclassify_opencode_providers.py:261-363 | a second run, in any order, changes nothing |
| OpenCodeMigration.DryRunPredicts | scripts/reclassify_opencode_providers.py:336-353 | a dry run announces as many changes as the applied run makes and skips for conflict |
| CollapseAccounts.WinnerIsBetter | scripts/collapse_default_account_events.py:105-126 | the winner is the better row in the documented order, whichever comes first |
| CollapseAccounts.BetterIsStrictTotalOrder | scripts/collapse_default_account_events.py:33-36 | that order is irreflexive, transitive, asymmetric, and total on different ids |
| CollapseAccounts.MigrateProvider | scripts/collapse_default_account_events.py:129-184 | without a target nothing happens; otherwise the table becomes the outcome, or stays in a dry run, and both count the same pairs, deleted rows, lone rows, and winners that were not under the target |
| CollapseAccounts.ResolveTarget | scripts/collapse_default_account_events.py:91-102 | the one account that is neither empty nor stale, if there is exactly one |
| CollapseAccounts.Database.Flush | scripts/collapse_default_account_events.py:178-181 | pending accounts are written in any order and none meets the unique key |
| CollapseAccounts.UniqueThroughout | app/models/db_usage.py:84-89 | at every stage, whatever has been written so far, account and event are unique |
| CollapseAccounts.OneWinnerLeft | scripts/collapse_default_account_events.py:166-181 | a collapsed pair leaves its better row alone, under the target, otherwise unchanged |
| CollapseAccounts.PairEnds | scripts/collapse_default_account_events.py:105-126 | of a pair a message outlasts what is none, else the row with more input and output tokens stays, else the one with the smaller id; it is under the target afterwards |
| CollapseAccounts.LoneRowMoves | scripts/collapse_default_account_events.py:148-156 | the only row of an event, if under the stale account, is moved to the target |
| CollapseAccounts.OthersStay | scripts/collapse_default_account_events.py:157-164 | rows of events without a stale row, or with a third account, stay as they are |
| CollapseAccounts.EveryEventIsCovered | scripts/collapse_default_account_events.py:147-164 | with a unique key there is no further kind of event |
| CollapseAccounts.CountersMean | scripts/collapse_default_account_events.py:130-180 | pairs and deletions are the rows that are gone, lone rows those alone under the stale account, and retagged winners those left of two that were not under the target |
| CollapseAccounts.SourceOnlyInSkipped | scripts/collapse_default_account_events.py:149-164 | what is left under the stale account belongs to a skipped event that also has another account |
| CollapseAccounts.SkippedUntouched | scripts/collapse_default_account_events.py:159-164 | rows of a skipped event stay as they are |
| CollapseAccounts.NoEventLost | scripts/collapse_default_account_events.py:147-181 | every event keeps a row |
| CollapseAccounts.SecondRunChangesNothing | scripts/collapse_default_account_events.py:147-181 | run again with the same accounts, nothing changes |
| AntigravityMerge.ScanTwinDivergence | scripts/merge_antigravity_accounts.py:206-263 | counts per field are the pairs that differ in it, and listed are exactly the events whose twins disagree on a blocking field, each once |
| AntigravityMerge.BlockingMeansCharge | scripts/merge_antigravity_accounts.py:65-74 | the blocking fields are the whole charge |
| AntigravityMerge.DedupDelete | scripts/merge_antigravity_accounts.py:291-349 | deleted are exactly the legacy messages with a twin, for any batch size; a dry run deletes nothing and reports the same |
| AntigravityMerge.GoneExactlyWhen | scripts/merge_antigravity_accounts.py:302-317 | they are the messages of provider "antigravity" under account "default" whose event has a message under the real account |
| AntigravityMerge.ColumnsAreApart | scripts/merge_antigravity_accounts.py:219-257 | a difference in one of the ten columns is counted under that column alone |
| AntigravityMerge.Merge | scripts/merge_antigravity_accounts.py:461-537 | aborts exactly on divergence, or else on gauges left behind, without force; otherwise no event is lost, every row that is not a legacy message stays as it is, without force no charge is lost, and dry run and applied run report the number of message events the deletion leaves |
| AntigravityMerge.DiscoverAccount | scripts/merge_antigravity_accounts.py:100-152 | success exactly with one candidate, no account exactly with none, ambiguous exactly with two; success means that the provider's events know no third account |
| AntigravityMerge.CandidateMeans | scripts/merge_antigravity_accounts.py:111-137 | gauges are asked for accounts only where no event names one, and snapshots only where no gauge does |
| AntigravityMerge.ChargesKeptExactlyWhen | scripts/merge_antigravity_accounts.py:454-484 | the record of charges per event is kept exactly when no twins diverge |
| AntigravityMerge.ChargesKept | scripts/merge_antigravity_accounts.py:331-340 | without divergence it is kept after every batch |
| AntigravityMerge.NoEventLost | scripts/merge_antigravity_accounts.py:331-340 | no event disappears, even if the run stops between batches |
| AntigravityMerge.OneRowPerEvent | scripts/merge_antigravity_accounts.py:294-297 | afterwards each event has one row, so nothing is counted twice |
| AntigravityMerge.SecondRunDeletesNothing | scripts/merge_antigravity_accounts.py:315-317 | a second run finds no twins |
| AntigravityMerge.PreviewIsExact | scripts/merge_antigravity_accounts.py:522-537 | the preview is the set of message events the run leaves |
| FailingPrefix.ShortestMarker | app/core/utils.py:303 | the pattern matches exactly when the detail starts with a marker, and then the shortest |
| FailingPrefix.LeftoverFollowsHyphen | app/core/utils.py:311 | the non-overlapping replace leaves a separator only right behind a hyphen |
| FailingPrefix.ShownHasNoClose | app/core/utils.py:309-311 | a shown reason never contains the closing separator |
| FailingPrefix.StripInvertsAdd | app/core/utils.py:306-313 | taking the marker off gives back the detail exactly when the shown reason is one line |
| FailingPrefix.ReprefixReplacesExactlyWhen | app/core/utils.py:306-313 | a new reason replaces the earlier one exactly when the earlier one, stripped, has no line break |
| FailingPrefix.MarkersNeverStack | app/core/utils.py:306-313 | after any number of one-line reasons the detail carries one marker, the last |
| FailingPrefix.LineBreakStacks | app/core/utils.py:303-313 | a reason with a line break makes markers pile up |
| FailingPrefix.ReasonIsShown | app/core/utils.py:309-313 | a line without a marker is put behind the sign, the words and the stripped reason in brackets |
| FailingPrefix.NoReasonIsShown | app/core/utils.py:309-313 | without a reason, or with a blank one, behind the sign and the words |
| FailingPrefix.FirstIsReplaced | app/core/utils.py:311 | the first em dash between blanks becomes a hyphen, and what follows is treated alike |
| FailingPrefix.NothingToReplace | app/core/utils.py:311 | without one the reason is left as it is |
| DnsProbe.DnsQuestion | scripts/security_browser_probe.py:81-101 | the loop ends and stays in bounds on all bytes and computes the parse, with the error of the first defect |
| DnsProbe.ParseInvertsEncode | scripts/security_browser_probe.py:81-101 | the parser inverts the wire encoding of every question of ASCII labels, whatever else the message holds |
| DnsProbe.AcceptsExactly | scripts/security_browser_probe.py:83-101 | accepted are exactly the messages that announce one question and hold an encoded one |
| DnsProbe.ParsedIsEncoded | scripts/security_browser_probe.py:85-101 | what was parsed is the encoding of the labels behind the name |
| DnsProbe.EncodingIsUnique | scripts/security_browser_probe.py:85-96 | the encoding leaves no doubt about the labels or about where it ends |
| DnsProbe.NameFixesLabels | scripts/security_browser_probe.py:101-107 | without dots inside labels, equal names mean equal labels up to case |
| DnsProbe.SameExactlyWhenDotless | scripts/security_browser_probe.py:101-107 | labels behind the name of dotless labels are the same labels exactly when they hold no dot themselves |
| DnsProbe.AddressForHostExactlyWhen | scripts/security_browser_probe.py:104-114 | an address that is given is given for the host's own labels exactly when no label of the query holds a dot |
| DnsProbe.HostnameIsAnswered | scripts/security_browser_probe.py:101-114 | for a host name of dotless parts, dots behind it aside, the reply has code 0 exactly when the dotless labels of the query spell its parts in either case, and then an address exactly for type 1 and class 1 |
| DnsProbe.DotsInsideLabelsBlur | scripts/security_browser_probe.py:101 | any two adjacent labels that fit into one have a namesake of different labels |
| DnsProbe.LongNamesAreAccepted | scripts/security_browser_probe.py:85-96 | a name of 257 octets is parsed like any other |
| DnsProbe.ReplyAsksTheSame | scripts/security_browser_probe.py:104-114 | a reply keeps the id, is an authoritative response with code 0 or 3 and counts of one question, at most one answer and nothing else, and parses to the question it answers |
| DnsProbe.AddressExactlyWhen | scripts/security_browser_probe.py:109-114 | an address is given exactly when the name matches and type and class are 1; its record, read with pointers followed, names the question's labels and ends the reply |

## Left out

- ReplayProtection.PreFlight: keyed digests are symbolic (equal exactly when key and message are), bytes are characters, and the parsing of header numbers is a parameter; logging, response details beyond status and reason, and `request.state` are not modelled.
- DecimalTimestamps.OncePerSignatureExactlyWhen: claims commit when they read the clock, and timestamps are plain decimals; signs, exponents, underscores, white space and a leading point, which `float` also reads, are not modelled.
- SidecarIds.IdempotentExactlyWhen: lower case and digits are those of ASCII.
- DnsProbe.AddressExactlyWhen: the hostname is lower-cased as ASCII, and the address is given as four bytes; the HTTP side of the probe is not modelled.
- ListBoundary.ObserveListBoundary: digests are symbolic; `decode_boundary_json` is not modelled.
- ChatEvidence.ObserveConversation: what the UUID library makes of a string is a parameter.
- ChatVerifier.EveryAttemptIsAccepted: replies, failures and the clock are chosen by the run; the contents of account and organisation replies are not modelled.
- UsageAudit.AuditMessages: diagnostics are an enumeration and a set; their spelling and the sorted list are not modelled, nor is reading JSON lines from a stream.
- AntigravityMerge.Merge: whether gauges of the legacy account are left, and the accounts in the gauge tables, are parameters; rollups and windows are not modelled.
- Floating-point weights, costs and times are real numbers; rounding is not modelled.
- Key sets, types and fixed flags of reports hold by construction of the datatypes, so the verifiers' checks of them are not restated.
- SQLAlchemy and SQLite are reduced to a table with a unique key, flush, savepoint and commit; queries return rows in any order.
- `_merge_registry` and the event retagging of `scripts/normalize_sidecar_ids.py`, and the outer loop over groups of `scripts/dedup_usage_windows.py`.
- `parse_durations`, `load_weights` and the summary of the shard planner.
- Pricing, rollups, backfill and recost, which the migrations call afterwards.
- HTTP wiring, user interface, log redaction, and the decisions (`evaluate`) built on accepted reports.
