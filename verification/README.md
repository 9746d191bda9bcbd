# Verification models of the RzCodex helpers

These Dafny modules model the parts of the repository whose correctness is decided by their own code: a
command-line printer, two conformance gates, a stream client, a layered configuration loader, an event queue, a
fixture server, and three small translators. Each module names the source file it follows. Code that changes state
step by step is modelled by classes and methods with loops, each proved against a specification function; the
promises of the source are then lemmas about those functions, over all inputs, all runs or all reachable states.

| file | what it models |
|---|---|
| `LauncherArguments.dfy` | the Windows argument printer, and the argument parser of the Microsoft C runtime as its inverse |
| `RegressionReport.dfy`, `RegressionGate.dfy` | conformance reports, their validation, baseline compaction and the regression gate |
| `ReviewReport.dfy`, `ReviewGate.dfy` | the same for reviewer reports |
| `AppServerClient.dfy` | the JSONL client that demultiplexes one stream and keeps a log |
| `RoleConfig.dfy`, `RoleDiscovery.dfy`, `RoleLoader.dfy` | agent role files, the directory walk, and strict and layered loading |
| `AnalyticsQueue.dfy`, `AnalyticsClient.dfy` | the bounded event queue as a state machine, the dedupe sets, the batching |
| `ServerSentEvents.dfy`, `LegacySessions.dfy` | the event-stream printer with a standard reader, and the session handshake |
| `ReleaseVersion.dfy` | release versions, tags and the versions of the Python runtime |
| `DiffCounts.dfy` | line counts of a unified diff |
| `LintArgs.dfy` | argument normalization of the lint wrapper |
| `GateErrors.dfy` | what the two gates' error lists have in common |
| `Ordering.dfy`, `Sequences.dfy`, `Results.dfy` | the orders behind `sorted`, `BTreeMap` and path sorting; concatenation; option and result types |

## Where the code is not what one would expect

Each of these is proved, with the exact condition under which the expectation holds.

- The arguments after the program name come back from the C runtime parser unless the program name leaves a quote
  open before a blank, or at its end with arguments following (`TailComesBackIff`, `QuotedProgramLosesTail`). The C
  runtime reads the program name by simpler rules than the printer escapes it for. This is a property of
  `JoinArguments` alone: the launcher's `Main` also passes the name to `CreateProcess` as the application
  (scripts/rzcodex-bridge-launcher.cs:176-178), and no Windows file name holds a quote, so such a name fails to start.
- A compact conformance baseline judges like the report it was made from exactly when every required case and pinned
  scenario has a check that was not skipped; skipped checks are not written out (`RegressionGate.CompactionPreservesGate`).
  A run that skipped everything is accepted against itself, but nothing is accepted against its compact form
  (`SkippedBaseline`).
- A wait for a notification that starts beyond the end of the log returns the next match anyway, at an earlier index
  than asked for (`AfterIndexIff`), and a server request of the awaited name that arrives during the wait is skipped
  (`WaitReturnsFirst`, `SkipsServerRequest`).
- The separate role namespace keeps the two role directories of one `.codex` folder apart, and only of `.codex`
  folders (`SameFolderSharesIff`). The walk recurses, so layers of two folders can read one file when one folder lies
  inside the other's role directory, and only then (`NamespaceIsSeparateIff`, `NestedFolderIsShared`).
- Diff counts add up for a second diff that opens a file when the first ends in a line break; without one, the glued
  header line no longer closes the hunk (`AdditiveIff`, `GluedDiffMiscounts`).
- `1-bet-alpha.7` is accepted as the beta release `1b7`: the alpha rewrite completes the word that the beta rewrite
  looks for (`NormalizeIff`, `MisspelledBeta`).
- Lint argument normalization grows without end when the manifest path is the text `--` and none is given on the
  command line (`IdempotentIff`).

## Model

| member | source | states |
|---|---|---|
| LauncherArguments.EscapeArgument | scripts/rzcodex-bridge-launcher.cs:243-294 | the builder loop with its pending backslash count writes the recursive quoted form that the parser lemmas are about |
| LauncherArguments.JoinArguments | scripts/rzcodex-bridge-launcher.cs:229-241 | the loop writes the escaped arguments from the start index on, one blank between two; nothing for an index past the end |
| LauncherArguments.ParseEscapeBody | scripts/rzcodex-bridge-launcher.cs:266-293 | the C runtime parser, inside quotes, reads the quoted form back to the argument: the printer's pending count is the parser's backslash count |
| LauncherArguments.ParseSepJoin | scripts/rzcodex-bridge-launcher.cs:229-241 | a joined list parses back to exactly the list, under both quoting rules of the C runtime |
| LauncherArguments.TailComesBack | scripts/rzcodex-bridge-launcher.cs:229-294 | all arguments after the program name come back when the name closes its quotes |
| LauncherArguments.TailComesBackIff | scripts/rzcodex-bridge-launcher.cs:229-294 | they come back if and only if it does, under both quoting rules |
| LauncherArguments.DoublingAdds | scripts/rzcodex-bridge-launcher.cs:229-294 | on any command line the doubled-quote rule keeps the number and blanks of the arguments and changes one only by adding quotes |
| LauncherArguments.ProgramComesBackIff | scripts/rzcodex-bridge-launcher.cs:229-294 | the program name comes back if and only if it has no double quote and no final backslash |
| LauncherArguments.CommandLineRoundTrip | scripts/rzcodex-bridge-launcher.cs:229-294 | for such a program name the parsed line is the whole argument list |
| LauncherArguments.QuotedProgramLosesTail | scripts/rzcodex-bridge-launcher.cs:229-294 | the program name `a" b` loses the argument after it |
| LauncherArguments.OddLosesRest | scripts/rzcodex-bridge-launcher.cs:229-294 | a name that ends inside quotes loses an argument or a blank of one |
| RegressionReport.RetryNumberIrrelevant | scripts/mcp_conformance/run_codex_compliance.py:1425-1456 | observations of a check that differ only in their arrival number have one identity |
| RegressionReport.ScanCases | scripts/mcp_conformance/run_codex_compliance.py:1598-1613 | the case loop builds the table of first cases and reports malformed and duplicate ones in order |
| RegressionReport.ScanChecks | scripts/mcp_conformance/run_codex_compliance.py:1639-1664 | the check loop collects statuses by identity and the observed scenarios of official HTTP |
| RegressionReport.ScanRecords | scripts/mcp_conformance/run_codex_compliance.py:1521-1554 | the record loop of one compact bucket: malformed and duplicate records are reported and skipped |
| RegressionReport.ScanCompact | scripts/mcp_conformance/run_codex_compliance.py:1493-1591 | the compact branch as a whole, with its two early returns |
| RegressionReport.RequiredRegressionChecks | scripts/mcp_conformance/run_codex_compliance.py:1459-1679 | the validator's errors, in order, and identities are those of the specification fold |
| RegressionGate.EvaluateRegressionGate | scripts/mcp_conformance/run_codex_compliance.py:1744-1809 | the two sorted passes give the verdict in closed form: each list is the sorted listing of a set of identities |
| RegressionGate.CandidatePass | scripts/mcp_conformance/run_codex_compliance.py:1773-1782 | the candidate loop lists the shipping failures, new failures and known failures |
| RegressionGate.BaselinePass | scripts/mcp_conformance/run_codex_compliance.py:1784-1799 | the baseline loop lists the missing and fixed checks, and the shipping checks that do not pass |
| RegressionGate.NoProblemsClean | scripts/mcp_conformance/run_codex_compliance.py:1459-1679 | a report without errors has the pinned catalog, and its identities are well formed and within it |
| RegressionGate.CompactionReadsBack | scripts/mcp_conformance/run_codex_compliance.py:1682-1727 | reading a compact baseline back gives the statuses without SKIP, and no error if and only if every case and scenario has a check that was not skipped |
| RegressionGate.CompactionPreservesGate | scripts/mcp_conformance/run_codex_compliance.py:1682-1809 | every candidate gets the same verdict from a report and from its compact form, if and only if that coverage holds |
| RegressionGate.SkippedBaseline | scripts/mcp_conformance/run_codex_compliance.py:1682-1809 | whatever the catalog, the all-skipped report compacts without coverage, and every candidate is judged differently by the two |
| RegressionGate.CompactionIdempotent | scripts/mcp_conformance/run_codex_compliance.py:1682-1727 | compacting a covering baseline again changes nothing |
| RegressionGate.AcceptsIff | scripts/mcp_conformance/run_codex_compliance.py:1744-1809 | acceptance means: both reports without errors and shipping failures, one auth policy, and the ratchet between their statuses |
| RegressionGate.AcceptanceReflexive | scripts/mcp_conformance/run_codex_compliance.py:1744-1809 | a report is accepted against itself if and only if it is acceptable at all |
| RegressionGate.AcceptanceTransitive | scripts/mcp_conformance/run_codex_compliance.py:1744-1809 | acceptance is transitive |
| RegressionGate.AcceptedByKept | scripts/mcp_conformance/run_codex_compliance.py:1682-1809 | a run accepted against what was kept of another, the report or its compact form, is accepted against that report |
| RegressionGate.ChainIsRatchet | scripts/mcp_conformance/run_codex_compliance.py:1744-1809 | over any chain of accepted runs PASS identities only grow, FAIL identities only shrink, and none loses both |
| ReviewReport.RequiredReviewChecks | scripts/mcp_conformance/review_regressions.py:859-1029 | the validator's errors, in order, and identities are those of the specification fold, for full and compact reports |
| ReviewReport.ScanCases | scripts/mcp_conformance/review_regressions.py:944-993 | the case loop with its nested check loop and per-case success |
| ReviewReport.ScanCompact | scripts/mcp_conformance/review_regressions.py:882-937 | the compact branch: required cases, then the passing and failing buckets |
| ReviewGate.EvaluateReviewGate | scripts/mcp_conformance/review_regressions.py:1070-1110 | the two sorted passes give the verdict in closed form |
| ReviewGate.CompactionRoundTrip | scripts/mcp_conformance/review_regressions.py:1032-1067 | a compact baseline parses without errors to the same identity map, cases and totals |
| ReviewGate.CompactionPreservesGate | scripts/mcp_conformance/review_regressions.py:1032-1110 | a report and its compact form are interchangeable on both sides of the gate, and compacting twice is compacting once |
| ReviewGate.AcceptsIff | scripts/mcp_conformance/review_regressions.py:1070-1110 | success means: no errors, the baseline's checks are among the candidate's, and every failing check was failing before |
| ReviewGate.AcceptanceIsPreorder | scripts/mcp_conformance/review_regressions.py:1070-1110 | acceptance is reflexive on exactly the compactable reports, and transitive |
| ReviewGate.ChainIsRatchet | scripts/mcp_conformance/review_regressions.py:1070-1110 | over any chain of accepted runs, full or compact, every later run is accepted by every earlier one |
| AppServerProtocol.AppServerClient.Request | scripts/mcp_conformance/run_codex_compliance.py:242-276 | the request loop over the stream: the new state and outcome are those of the specification |
| AppServerProtocol.AppServerClient.WaitForNotification | scripts/mcp_conformance/run_codex_compliance.py:278-317 | the log scan and the wait loop: the new state and outcome are those of the specification |
| AppServerProtocol.AppServerClient.HandleServerRequest | scripts/mcp_conformance/run_codex_compliance.py:319-353 | a server request is logged, an elicitation recorded, and a reply with its id written unless the process has exited |
| AppServerProtocol.AppServerClient.Send | scripts/mcp_conformance/run_codex_compliance.py:228-237 | a message is written exactly when the process still runs |
| AppServerProtocol.RequestLoopConsumes | scripts/mcp_conformance/run_codex_compliance.py:254-276 | what a request takes off the stream is what it logs, in order, then the response it returns, which carries its number |
| AppServerProtocol.WaitLoopConsumes | scripts/mcp_conformance/run_codex_compliance.py:292-317 | what a wait takes off the stream it logs in order, and nothing before the notification it returns matches except server requests |
| AppServerProtocol.RunConserves | scripts/mcp_conformance/run_codex_compliance.py:242-353 | over any calls on any stream each message is returned once or logged once, in order, and every logged server request got one reply with its id |
| AppServerProtocol.ResponsesAreOwn | scripts/mcp_conformance/run_codex_compliance.py:242-276 | a response is returned only by the request whose number it carries, and numbers do not repeat |
| AppServerProtocol.WaitReturnsFirst | scripts/mcp_conformance/run_codex_compliance.py:278-317 | when a wait returns and what, in terms of the log and the stream it is given: the first match of the log, or the stream's first matching notification, which is the first match overall if and only if no server request ahead of it matches |
| AppServerProtocol.FirstUnlessAsked | scripts/mcp_conformance/run_codex_compliance.py:278-317 | on a stream whose server requests do not use the awaited name a successful wait returns the first match from the slice start on |
| AppServerProtocol.SkipsServerRequest | scripts/mcp_conformance/run_codex_compliance.py:309-317 | a server request of the awaited name is answered, and the wait returns the notification after it |
| AppServerProtocol.AfterIndexIff | scripts/mcp_conformance/run_codex_compliance.py:285-290 | the given index is respected on every stream if and only if it is not beyond the log |
| RoleConfig.NormalizeDescription | codex-rs/agent-roles/src/agent_role_config.rs:120-132 | an accepted description is trimmed and not empty; it is refused exactly when blank |
| RoleConfig.NormalizeNicknameCandidates | codex-rs/agent-roles/src/agent_role_config.rs:159-209 | the loop with its growing list and set gives the normalized list, or the first error in the order of the code |
| RoleConfig.NormalizeListIff | codex-rs/agent-roles/src/agent_role_config.rs:174-208 | a list is accepted if and only if its trimmed names are good and distinct, and becomes those |
| RoleConfig.NicknamesFixed | codex-rs/agent-roles/src/agent_role_config.rs:159-209 | a normalized nickname list is a fixed point of normalization |
| RoleDiscovery.ScanDirectory | codex-rs/agent-roles/src/discovery.rs:21-35 | one directory's entries: files and pushed directories together account for all that lies below |
| RoleDiscovery.CollectRoleFiles | codex-rs/agent-roles/src/discovery.rs:7-40 | the stack walk ends, fails exactly when a directory below cannot be read, and returns in path order the files of the recursive traversal |
| RoleDiscovery.FilesUnderIff | codex-rs/agent-roles/src/discovery.rs:13-36 | a file is found if and only if its entry is a `.toml` file and each directory on its way is listed as one |
| RoleDiscovery.InOrderUnique | codex-rs/agent-roles/src/discovery.rs:38-39 | path order determines the returned list |
| RoleLoader.LoadWithoutLayers | codex-rs/agent-roles/src/loader.rs:150-170 | the strict loader stops at the first error and otherwise returns every declared role |
| RoleLoader.ScanDeclared | codex-rs/agent-roles/src/loader.rs:47-74 | a layer's declared roles, their files, and one warning for each role skipped |
| RoleLoader.DiscoverAgentRoles | codex-rs/agent-roles/src/loader.rs:315-360 | the files of a directory in path order give its roles and warnings; it fails exactly when a directory cannot be read |
| RoleLoader.MergeLayerRoles | codex-rs/agent-roles/src/loader.rs:104-117 | the merge loop inherits missing fields and drops, with a warning, what stays undescribed |
| RoleLoader.LoadOneLayer | codex-rs/agent-roles/src/loader.rs:37-102 | one layer's own roles and warnings, declared ones before discovered ones |
| RoleLoader.LoadAgentRoles | codex-rs/agent-roles/src/loader.rs:23-121 | without layers the strict loader; otherwise the layers folded low to high |
| RoleLoader.LayersClosedForm | codex-rs/agent-roles/src/loader.rs:104-117 | a role is loaded if and only if some layer describes it, each field as last given from the lowest describing layer upward |
| RoleLoader.LayersWarnings | codex-rs/agent-roles/src/loader.rs:104-117 | each undescribed mention below the lowest description gives exactly one warning |
| RoleLoader.LoadLayersClosedForm | codex-rs/agent-roles/src/loader.rs:35-120 | both, for the loader itself over any readable layers |
| RoleLoader.LoadLayersGood | codex-rs/agent-roles/src/loader.rs:35-120 | every role the layers load has a trimmed, non-empty description and nicknames that normalization leaves alone |
| RoleLoader.LoadStrictGood | codex-rs/agent-roles/src/loader.rs:150-189 | so has every role the strict loader returns |
| RoleLoader.StrictAndLenientAgree | codex-rs/agent-roles/src/loader.rs:35-170 | on one layer without a folder there is no warning if and only if the strict loader succeeds, and then both return the same roles |
| RoleLoader.DiscoveredFirst | codex-rs/agent-roles/src/loader.rs:321-359 | a name comes from the first undeclared file that gives it, and each undeclared file gives a role or one warning |
| RoleLoader.DiscoveredLeast | codex-rs/agent-roles/src/loader.rs:315-360 | over a directory that is the least undeclared path that parses to the name |
| RoleDiscovery.SharedFileIff | codex-rs/agent-roles/src/discovery.rs:7-40 | two walks can return one file if and only if one root is the other or lies inside it |
| RoleLoader.NamespaceIsSeparateIff | codex-rs/agent-roles/src/loader.rs:123-142 | a layer under the separate namespace and a `.codex` layer under the official one can read one role file if and only if one folder lies inside the other's role directory |
| RoleLoader.SameFolderSharesIff | codex-rs/agent-roles/src/loader.rs:123-142 | the two namespaces of one folder never share a file if and only if it is a `.codex` folder |
| RoleLoader.NestedFolderIsShared | codex-rs/agent-roles/src/loader.rs:127-142 | a `.codex` folder inside a role directory has its roles read by the layer around it |
| AnalyticsQueue.RunInv | codex-rs/analytics/src/client.rs:158-195 | every step of every interleaving keeps the queue in order, the log folded, and the flushes after what they cover |
| AnalyticsQueue.RunIsSequential | codex-rs/analytics/src/client.rs:158-195 | in every reachable state the channel holds at most 256 messages, the last accepted in order, and the delivered log is the sequential fold of those finished |
| AnalyticsQueue.FlushIsBarrier | codex-rs/analytics/src/client.rs:166-172 | when a flush is acknowledged, its message lies behind everything accepted before its call, the reducer's state is the fold of the accepted messages to beyond it, and the events of all of them were handed to the sender |
| AnalyticsQueue.FlushCoversEarlierFacts | codex-rs/analytics/src/client.rs:256-277 | everything accepted when `flush` was called has then been ingested and its events handed over |
| AnalyticsQueue.DrainFinishes | codex-rs/analytics/src/client.rs:163-178 | the consumer left alone empties the queue, ends at the fold of everything accepted, and answers every queued flush |
| AnalyticsQueue.QueuedFlushesAreAnswered | codex-rs/analytics/src/client.rs:163-178 | the same from every reachable state |
| AnalyticsDedupe.EmittedKeys.ShouldEnqueueAppUsed | codex-rs/analytics/src/client.rs:197-213 | the new set and answer; without a connector the set is left alone |
| AnalyticsDedupe.EmittedKeys.ShouldEnqueuePluginUsed | codex-rs/analytics/src/client.rs:215-236 | the new set and answer; a full set is cleared even when the call has no key |
| AnalyticsDedupe.DedupeAccounting | codex-rs/analytics/src/client.rs:197-236 | over any run the set has at most 4096 keys, keyed `true` answers number 4096 per clear plus the current size, and no key gets more than one per clear and one more |
| AnalyticsDedupe.RefusedIffRepeated | codex-rs/analytics/src/client.rs:197-236 | a key is in the set if and only if it was asked about since the last clear |
| AnalyticsBatches.TrackEventRequestBatches | codex-rs/analytics/src/client.rs:858-879 | the loop with its open batch gives the batches of the specification |
| AnalyticsBatches.BatchesPartition | codex-rs/analytics/src/client.rs:858-879 | the batches concatenate to the input, none is empty, and each isolated event is alone |
| AnalyticsBatches.BatchesOptimal | codex-rs/analytics/src/client.rs:858-879 | no other order-preserving partition that isolates those events has fewer batches |
| ServerSentEvents.EncodedStreamReadsBack | scripts/mcp_conformance/server.py:1344-1371 | a reader after sections 9.2.5 and 9.2.6 of the WHATWG HTML Living Standard dispatches exactly the payloads, in order, for every profile |
| ServerSentEvents.FloodExceedsLimit | scripts/mcp_conformance/server.py:1349-1357 | the comment flood is longer than the event limit it is meant to exceed, in lines of the stated size |
| LegacySessions.FixtureServer.HandleMessage | scripts/mcp_conformance/server.py:306-362 | the plan of a message and the new flags of its session |
| LegacySessions.FixtureServer.LegacyState | scripts/mcp_conformance/server.py:1542-1568 | which state object a message is handled with, and the session map with it |
| LegacySessions.FixtureServer.HandleIn | scripts/mcp_conformance/server.py:1509 | handling a message changes the flags of its own session alone |
| LegacySessions.FixtureServer.DoPost | scripts/mcp_conformance/server.py:1502-1568 | the new session map and response of a request with a message |
| LegacySessions.FixtureServer.DoDelete | scripts/mcp_conformance/server.py:1412-1431 | the session is removed, and the response says whether there was one |
| LegacySessions.StepFrame | scripts/mcp_conformance/server.py:1412-1568 | a step on one session leaves every other as it was |
| LegacySessions.SessionsClosedForm | scripts/mcp_conformance/server.py:1412-1568 | after any requests a session is open if and only if some request made it since it was last deleted, and its flags are exactly what that request and later confirmations say |
| LegacySessions.SessionInv | scripts/mcp_conformance/server.py:350-362 | in every session `initialized` implies `initialize_seen`, and each flag holds if and only if its own requests came, in order |
| LegacySessions.ServedIff | scripts/mcp_conformance/server.py:529-572 | a well-formed request of a served method gets its result if and only if its session was opened by a valid `initialize` and then confirmed |
| LegacySessions.ResultsIff | scripts/mcp_conformance/server.py:306-348 | every result answers such a request, or a valid `initialize` in its own new session |
| LegacySessions.ServedOnlyAfterHandshake | scripts/mcp_conformance/server.py:487-572 | a result of any other method comes only after a valid `initialize` and then `notifications/initialized` in that session |
| LegacySessions.RejectedNeverServes | scripts/mcp_conformance/server.py:494-503 | a session whose creating `initialize` was rejected never gives a result, while its id is not given to another session |
| LegacySessions.ConfirmedStaysInitialized | scripts/mcp_conformance/server.py:350-362 | a session once confirmed stays initialized until it is deleted or its id given again |
| ReleaseVersion.ScanIff | sdk/python/release_version.py:9-12 | the scanner reads exactly the printed forms of a version, and each to that version |
| ReleaseVersion.NormalizeIff | sdk/python/release_version.py:68-82 | exactly which texts normalize to a given version: its normal form, its dashed spellings with or without the dot, and one accidental beta spelling |
| ReleaseVersion.MisspelledBeta | sdk/python/release_version.py:75-78 | that accident on a concrete text |
| ReleaseVersion.TagRoundTrip | sdk/python/release_version.py:45-82 | normalizing the tag, or the bare or `v`-prefixed release version, gives the normal form it was made from |
| ReleaseVersion.ReleaseIdempotent | sdk/python/release_version.py:49-65 | the release version of a release version is itself |
| ReleaseVersion.SameTagIff | sdk/python/release_version.py:45-65 | two accepted versions share a tag if and only if they normalize alike |
| ReleaseVersion.NormalFormsAreFixed | sdk/python/release_version.py:68-82 | the fixed points of normalization are exactly the texts of the normalized pattern, and one pass reaches one |
| ReleaseVersion.RuntimeTagLeadsBack | sdk/python/release_version.py:35-42 | every Python runtime version resolves, and its tag normalizes back to it |
| ReleaseVersion.RuntimeTagsDistinct | sdk/python/release_version.py:35-42 | distinct runtime versions have distinct tags |
| DiffCounts.AcceptedLineCounts | codex-rs/analytics/src/accepted_lines.rs:27-61 | the loop over the lines counts what the fold counts |
| DiffCounts.CountsAreExact | codex-rs/analytics/src/accepted_lines.rs:27-61 | on every rendered diff of any number of files the counts are the numbers of added and deleted body lines, whatever their content starts with |
| DiffCounts.FinalNewlineIrrelevant | codex-rs/analytics/src/accepted_lines.rs:32-55 | a missing final line break changes no count |
| DiffCounts.AdditiveAfterNewlineIff | codex-rs/analytics/src/accepted_lines.rs:27-61 | after a first diff that ends in a line break, counts add up if and only if no file header of the second is read inside the first's last hunk |
| DiffCounts.AdditiveIff | codex-rs/analytics/src/accepted_lines.rs:33-36 | with a second diff that opens a file they always do then, and without the line break exactly under that condition on the lines after its first |
| DiffCounts.GluedDiffMiscounts | codex-rs/analytics/src/accepted_lines.rs:33-36 | two diffs whose counts do not add up |
| DiffCounts.StartMatters | codex-rs/analytics/src/accepted_lines.rs:43-54 | reading a text from inside a hunk instead of outside changes a count if and only if a file header precedes the next file or hunk, and never lowers one |
| LintArgs.ParsedWrapperArgs.ReadFlag | tools/argument-comment-lint/wrapper_common.py:83-100 | one lint argument where no value is pending sets its flag, or opens a value |
| LintArgs.ParsedWrapperArgs.TakeValue | tools/argument-comment-lint/wrapper_common.py:73-81 | the argument after a value option sets the option's flag, whatever it looks like |
| LintArgs.ParseWrapperArgs | tools/argument-comment-lint/wrapper_common.py:53-102 | the parsing loop splits at the first separator, notes flags in the first part, values pending, and target selection in the second |
| LintArgs.BuildFinalArgs | tools/argument-comment-lint/wrapper_common.py:105-120 | the building statements give the closed form |
| LintArgs.ParseNormalized | tools/argument-comment-lint/wrapper_common.py:53-120 | what parsing finds in a normalized list: the user's parts with the additions around them, and every flag |
| LintArgs.IdempotentIff | tools/argument-comment-lint/wrapper_common.py:53-120 | normalizing again changes nothing if and only if the manifest path is not `--` or the user gave one |
| LintArgs.GrowsWithSeparatorPath | tools/argument-comment-lint/wrapper_common.py:53-120 | otherwise every pass makes the list longer |
| LintArgs.UserArgumentsSurvive | tools/argument-comment-lint/wrapper_common.py:53-120 | parsing a normalized list finds lint arguments that end in the user's and cargo arguments that begin with the user's; the rest is what the wrapper adds |
| LintArgs.UserArgumentsInOrder | tools/argument-comment-lint/wrapper_common.py:105-120 | for every manifest path the user's lint arguments and then the user's cargo arguments stand whole in the result |
| LintArgs.FixedIff | tools/argument-comment-lint/wrapper_common.py:53-120 | exactly which argument lists are left alone |

## Left out

- Reading and writing of processes, files, sockets and HTTP, clocks and time-outs, thread internals: arrivals, refused
  writes, listings and file contents are given values, and a time-out is a silence on the stream.
- The Win32 calls and the job lifecycle of the launcher's `Main`, and command lines with a NUL, which Windows cuts there.
- JSON, TOML and regular-expression engines: their results are given. `release_version.py` is modelled with scanners
  for its own patterns; a field of the wrong JSON type is a `None` or `Malformed` value of the report datatypes.
- Python's dynamic typing where it lets unequal types compare equal (`True == 1`), and its table of decimal digits,
  which is listed up to the blocks of the current Unicode version.
- The pinned scenario catalog and the required reviewer cases: parameters, so the results hold for any of them.
- The text of warnings and errors: tags that keep their kind, subject and order.
- `baselineReport` and `requiredModes` in a gate's result, and the `asdict` form of its identities: a path, a constant
  and a record with the same fields.
- Bytes: the event stream and the diff are decoded text; payloads that cannot be encoded are not covered.
- The modern protocol mode, tool, resource and prompt handlers of the fixture server: whether a served method gives a
  result is an arbitrary flag. The refusals of an HTTP request before its message is read are one `Refused` step.
- `AnalyticsReducer`: any state-transition function. Which events a sender may send depends on the account and is not
  part of the model; events count as handed over when the sender is called.
- A flush that gives up after its time-out: it is a step of the queue model, and promises nothing to its caller.
- Path resolution and the parts of a role file the loader only passes on; platform differences of path order.
- The width of counters: a diff has fewer lines than a 64-bit counter holds.
- `agent-graph-store`, `agent-identity`, packaging, formatting and download scripts: plumbing around code elsewhere.
