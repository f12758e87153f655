# Predicate SDK runtime core in Dafny

This project models the verification core of the Predicate (formerly Sentience)
Python SDK for browser agents:

- the `AgentRuntime`: step bookkeeping, assertion records, task-done tracking,
  CAPTCHA gating and resolution, `evaluate_js` output truncation, and the
  per-attempt snapshot limit schedule of `eventually`;
- the snapshot backend: extension option building, API-versus-extension
  routing, "context destroyed" detection, the snapshot cache, and the
  multi-snapshot union merge (dedupe keys, quality ranking, ordering, limit);
- the failure-artifact ring buffer: frame pruning, step records, snapshot
  redaction, the redaction hook and the persisted manifest;
- `PredicateBrowserAgent`: CAPTCHA configuration mapping, the bounded step
  history and the run-level vision budget;
- the browser-use plugin: binding with retries, effective snapshot options,
  step start and end hooks, per-step checks, the failure policy, `wrap_step`
  and `summarize_snapshot`;
- the authority contracts adapter: verification evidence, state hashing and
  action requests;
- the pydantic data models the rest relies on.

Every module sits in its own file and imports the modules beneath it:

- `Wrappers`, `Text`, `Json` are helpers. They model Python's `str.strip`,
  `str.lower`, whitespace normalisation, `str(int)`, and insertion-ordered
  dicts with `or`-defaulting and `str()` of a value.
- `Models` and `Captcha` hold the data model.
- `CaptchaGate`, `Runtime`, `SnapshotKeys`, `MergeOrder`, `SnapshotMerge`,
  `SnapshotBackend`, `SnapshotLimit`, `FailureArtifacts`, `BrowserAgent`,
  `BrowserUsePlugin` and `ContractsAdapter` hold the operations.

Objects whose fields the source updates in place are classes:
`AgentRuntime`, `CachedSnapshot`, `FailureArtifactBuffer`,
`PredicateBrowserAgent` and `PredicateBrowserUsePlugin`. Their methods carry
`modifies` clauses and state the whole new state, field by field; the
runtime's `StepKept`, `TaskKept` and `CaptchaKept` name the groups of fields
a method leaves as they were. Loops in the source are
`while` loops with invariants: the merge collection loop, frame pruning,
the bind retry loop, the checks loop and the snapshot summary. Each of these
methods is proved equal to a specification function, and the properties
are proved about that function.

Things the code reaches outside the process for are parameters of the model:

- the clock is an integer number of milliseconds;
- the backend factory is `nat -> Option<string>`, where `None` means the
  backend was created and `Some(e)` means it raised `e`;
- a check's outcome is a function of its index;
- `hashlib.sha256(...).hexdigest()` and `json.dumps` are string functions;
- the CAPTCHA handler's reply and the debugger's pause outcome are values.

## Model

| member | source | states |
|---|---|---|
| Models.NewElement | sentience/models.py:31-42 | an element built from its required fields is in the viewport, not occluded, at z-index 0, with no text |
| Models.ParseStatus | sentience/models.py:44-47 | only "success" and "error" are accepted as a snapshot status |
| Models.ParseStatusName | sentience/models.py:44-47 | parsing the name of a status gives that status back |
| Models.NewSnapshot | sentience/models.py:44-54 | a snapshot built from status, url and elements has every optional field unset |
| Models.DefaultScreenshotConfig | sentience/models.py:83-86 | the default screenshot format is png with no quality, and it is valid |
| Models.DefaultSnapshotOptions | sentience/models.py:96-104 | default options: no screenshot, limit 50, no filter, no use_api, no keys; they satisfy the field bounds |
| Models.ValidateSnapshotOptions | sentience/models.py:83-104 | options are accepted exactly when limit is in 1..500, the screenshot quality, whatever the format, is unset or in 1..100 and min_area is non-negative; accepted options are unchanged |
| Models.WithApiKey | predicate/agent_runtime.py:150-157 | a truthy key is written to both key fields and turns an unset use_api on; nothing else changes; an empty or missing key changes nothing |
| Models.WithApiKeyValid | predicate/agent_runtime.py:150-157 | key defaulting preserves the field bounds |
| Captcha.Resolution | sentience/captcha.py:28-38 | a resolution built from its action has every optional field unset |
| Captcha.DefaultCaptchaOptions | sentience/captcha.py:40-48 | the default options: abort policy, the default confidence, timeout and poll, one retry with a new session, no handler |
| CaptchaGate.Present | predicate/agent_runtime.py:758-767 | the evidence list keeps exactly the present entries |
| CaptchaGate.LowerHits | predicate/agent_runtime.py:780-781 | every non-empty hit appears lower-cased among the hits |
| CaptchaGate.IsCaptchaDetected | predicate/agent_runtime.py:745-819 | blocks exactly when options are set, the diagnostics report a detection at or above the minimum confidence, and any evidence shows an iframe, url or text hit that is not only generic |
| CaptchaGate.IframeHitIncluded | predicate/agent_runtime.py:780-781 | a non-empty iframe hit is among the lower-cased hits |
| CaptchaGate.StrongIframeBlocks | predicate/agent_runtime.py:793-819 | an iframe hit naming a known challenge provider blocks once the confidence is met |
| CaptchaGate.SelectorOnlyNeverBlocks | predicate/agent_runtime.py:774-776 | selector or script hits alone never block |
| CaptchaGate.ConfidenceMonotone | predicate/agent_runtime.py:818-819 | raising the reported confidence never turns a blocking detection off |
| CaptchaGate.ResolutionStep | predicate/agent_runtime.py:884-919 | abort fails with the policy-abort code; a new-session retry resets while within the retry budget and a reset hook exists, and fails otherwise; a wait uses the resolution's timings with the options' as fallback |
| CaptchaGate.WaitTimingsDefault | predicate/agent_runtime.py:914-917 | unset or zero wait timings fall back to the options' timings |
| Runtime.AllPassed | predicate/agent_runtime.py:1429-1431 | true exactly when every record of the step passed |
| Runtime.RequiredPassed | predicate/agent_runtime.py:1433-1436 | true exactly when every required record passed |
| Runtime.AllPassedImpliesRequired | predicate/agent_runtime.py:1429-1436 | all passing implies all required passing; both hold for an empty step |
| Runtime.OptionalFailureKeepsRequired | predicate/agent_runtime.py:1429-1436 | an optional record never changes whether the required ones passed |
| Runtime.StepId | predicate/agent_runtime.py:1217 | a step id is "step-" followed by the index |
| Runtime.StepIdInjective | predicate/agent_runtime.py:1217 | two step ids are equal exactly when their indices are |
| Runtime.FirstStepId | predicate/agent_runtime.py:162-163 | the first auto-generated step id is "step-0" |
| Runtime.RecordOf | predicate/agent_runtime.py:1318-1359 | a record carries the label, the outcome's pass flag and the required flag; its reason is empty exactly when the outcome has none |
| Runtime.FreshStepState | predicate/agent_runtime.py:1199-1208 | a new step clears the pre-step snapshot, url and last-action fields and sets the goal |
| Runtime.AgentRuntime.constructor | predicate/agent_runtime.py:123-192 | options are the given or default options with the first truthy key applied; step index -1; no assertions, task not done, no CAPTCHA options |
| Runtime.AgentRuntime.BeginStep | predicate/agent_runtime.py:1174-1233 | the index is the given one or the previous plus one; the id is its step id; assertions and step state are reset; task and CAPTCHA state are kept |
| Runtime.AgentRuntime.RecordOutcome | predicate/agent_runtime.py:1318-1359 | the record is appended exactly when it is recorded in the step; every other field is as before |
| Runtime.AssertFailureReason | predicate/agent_runtime.py:1264-1265 | only a failed required assertion asks for a persist, under "assert_failed:" followed by its label |
| Runtime.AgentRuntime.Assert | predicate/agent_runtime.py:1235-1266 | returns the outcome's pass flag and appends its record; a failed required assertion asks for the failure artifacts to be persisted under "assert_failed:" and its label; every other field is as before |
| Runtime.AgentRuntime.AssertDone | predicate/agent_runtime.py:1277-1316 | appends a required record; a pass sets the `task_done` flag and label; a failure leaves them alone and asks for the failure artifacts to be persisted; step and CAPTCHA state are as before |
| Runtime.AgentRuntime.GetAssertionsForStepEnd | predicate/agent_runtime.py:1394-1409 | returns the step's records, and the `task_done` flag and label only when that flag is set |
| Runtime.AgentRuntime.FlushAssertions | predicate/agent_runtime.py:1411-1418 | returns the step's records and empties them; every other field is as before |
| Runtime.AgentRuntime.ResetTaskDone | predicate/agent_runtime.py:1424-1427 | clears the done flag and label; every other field is as before |
| Runtime.AgentRuntime.SetCaptchaOptions | predicate/agent_runtime.py:738-743 | stores the options and resets the retry count; every other field is as before |
| Runtime.AgentRuntime.ApplyCaptchaResolution | predicate/agent_runtime.py:884-919 | a new-session retry increments the retry count; the step taken is ResolutionStep on the new count; every other field is as before |
| Runtime.AgentRuntime.HandleCaptchaIfNeeded | predicate/agent_runtime.py:850-882 | nothing happens exactly when no CAPTCHA blocks; abort and a missing handler fail; a handler that raises fails with the handler-error code; a handler's resolution (or abort) is decided by ResolutionStep on the new count, which grows by one exactly for an applied new-session retry; every other field is as before |
| Runtime.AppliedResolution | predicate/agent_runtime.py:857-882 | the callback policy applies the handler's reply when there is a handler and it replied; the abort policy applies `abort` |
| Runtime.RetryBudget | predicate/agent_runtime.py:897-912 | the n-th new-session retry resets exactly when n is within the retry budget, and fails exactly when it is beyond |
| Runtime.StringifyEvalValue | predicate/agent_runtime.py:726-736 | null prints "null", strings print as themselves, integers print their decimal value, booleans print "True" or "False" |
| Runtime.SliceTo | predicate/agent_runtime.py:476-478 | Python's `text[:n]` for negative and non-negative n: a prefix of the text of the right length |
| Runtime.TruncateOutput | predicate/agent_runtime.py:459-485 | output is truncated exactly when truncation is on and the text is longer than the limit; it then is the first max_chars characters and "..." |
| Runtime.TruncatedIsPrefix | predicate/agent_runtime.py:476-478 | truncated output keeps a prefix of the text and is at most three characters over the limit |
| SnapshotLimit.ClampLimit | predicate/agent_runtime.py:1534-1539 | a limit is clamped into 1..500 and left alone inside that range |
| SnapshotLimit.ResolveGrowth | predicate/agent_runtime.py:1488-1532 | start, step, maximum and apply-on mode are resolved with their documented fallbacks; a defaulted step is at least 1 |
| SnapshotLimit.LimitForAttempt | predicate/agent_runtime.py:1541-1544 | every per-attempt limit lies in 1..500 |
| SnapshotLimit.FirstAttemptUsesStart | predicate/agent_runtime.py:1541-1544 | the first attempt uses the clamped start limit |
| SnapshotLimit.LimitMonotone | predicate/agent_runtime.py:1541-1544 | with a non-negative step, later attempts never get a smaller limit |
| SnapshotLimit.DefaultScheduleMultiplies | predicate/agent_runtime.py:1488-1544 | with a growth dictionary that sets none of the four keys (an empty one disables growth), the n-th attempt uses n times the runtime limit, clamped to 500 |
| SnapshotLimit.AttemptLimit | predicate/agent_runtime.py:1549-1568 | no growth keeps the caller's limit; with growth every attempt gets a limit in 1..500: the schedule on every attempt under "all", on the first attempt and after a failed one under "only_on_fail", and otherwise the clamped start limit (50 when it is 0) |
| SnapshotLimit.RetriesFollowSchedule | predicate/agent_runtime.py:1551-1562 | in the default mode an attempt after a failure uses the growth schedule |
| SnapshotBackend.BuildExtensionOptions | sentience/backends/snapshot.py:644-667 | a field is sent to the extension exactly when it differs from its default |
| SnapshotBackend.ExtensionOptionsRoundTrip | sentience/backends/snapshot.py:644-667 | the screenshot, limit and filter can be read back from the extension options |
| SnapshotBackend.ExtensionOptionsDefaults | sentience/backends/snapshot.py:644-667 | default options send nothing; a sent limit is in range |
| SnapshotBackend.ChooseRoute | sentience/backends/snapshot.py:250-258 | the API is used exactly when the key is non-empty and use_api is not explicitly false |
| SnapshotBackend.ApiKeySelectsApi | sentience/backends/snapshot.py:250-256 | once a key is applied, the API is used unless use_api is explicitly false |
| SnapshotBackend.ContextDestroyedIgnoresCase | sentience/backends/snapshot.py:41-54 | detection of a lost execution context ignores letter case |
| SnapshotBackend.ContextDestroyedDetected | sentience/backends/snapshot.py:41-54 | any message containing one of the three phrases is detected |
| SnapshotBackend.CachedSnapshot.constructor | sentience/backends/snapshot.py:116-135 | a new cache is empty with the given maximum age and options |
| SnapshotBackend.CachedSnapshot.AgeMs | sentience/backends/snapshot.py:174-196 | the age is absent exactly when nothing is cached, and it exceeds the maximum age exactly when the cache is stale |
| SnapshotBackend.CachedSnapshot.Get | sentience/backends/snapshot.py:137-162 | a new snapshot is taken exactly when forced or stale, with the call's or the default options, and cached with the time it arrived and its url; otherwise the cached one is returned and nothing changes |
| SnapshotBackend.CachedSnapshot.Invalidate | sentience/backends/snapshot.py:164-172 | an invalidated cache holds nothing and is stale at every time |
| SnapshotBackend.CacheHitWithinAge | sentience/backends/snapshot.py:174-184 | a snapshot cached at t stays fresh through t plus the maximum age |
| SnapshotKeys.DocYBucket | sentience/backends/snapshot.py:287-293 | the document offset bucket is the ten-pixel band containing it |
| SnapshotKeys.KeyPrecedence | sentience/backends/snapshot.py:266-297 | the dedupe key is taken from href, then role and name, then role, text and offset band, then role and text, then role and band, then the id |
| SnapshotKeys.KeyContents | sentience/backends/snapshot.py:266-297 | each key holds the stripped href, the whitespace-normalised name, or the normalised text cut to 120 characters, the band or the id |
| SnapshotKeys.SameBandSameKey | sentience/backends/snapshot.py:283-288 | two unnamed elements with the same role, text prefix and band share a key |
| SnapshotKeys.BetterIsStrictTotalOrder | sentience/backends/snapshot.py:322-337 | the quality comparison is irreflexive, transitive, total on distinct qualities and asymmetric |
| SnapshotKeys.ImportanceThenHref | sentience/backends/snapshot.py:322-328 | higher importance wins, then having an href |
| MergeOrder.SortKeyOf | sentience/backends/snapshot.py:344-350 | rows with an offset sort first, by offset then descending importance; the rest sort after, in first-seen order |
| MergeOrder.Insert | sentience/backends/snapshot.py:344-350 | insertion adds exactly the row |
| MergeOrder.SortRows | sentience/backends/snapshot.py:344-350 | sorting is a permutation of the rows |
| MergeOrder.KeyLeTotal | sentience/backends/snapshot.py:344-350 | the sort key order is a total order |
| MergeOrder.InsertOrdered | sentience/backends/snapshot.py:344-350 | inserting a later row into an ordered list keeps it ordered |
| MergeOrder.SortOrdered | sentience/backends/snapshot.py:344-350 | rows collected in first-seen order come out ordered (the sort is stable) |
| MergeOrder.OrderedGroups | sentience/backends/snapshot.py:344-350 | in the result, offset rows come first in offset order, ties by descending importance, and unplaced rows keep first-seen order |
| SnapshotMerge.Samples | sentience/backends/snapshot.py:330-340 | every element is paired with its key and quality |
| SnapshotMerge.FirstSeen | sentience/backends/snapshot.py:330-340 | the first position of a key, before which no element has it |
| SnapshotMerge.MergeSpec | sentience/backends/snapshot.py:299-366 | merging nothing fails with the documented error; otherwise the result is the first snapshot with the merged elements, a prefix of the ordered union, and no screenshot |
| SnapshotMerge.Limit | sentience/backends/snapshot.py:352-359 | without a limit everything is kept; otherwise the first max(1, limit) elements |
| SnapshotMerge.RowsOf | sentience/backends/snapshot.py:330-340 | one row per kept key, holding its best element and first-seen position |
| SnapshotMerge.ElementsOf | sentience/backends/snapshot.py:340-363 | the elements of the rows, in order |
| SnapshotMerge.TableRows | sentience/backends/snapshot.py:330-340 | the collected rows have distinct keys and increasing first-seen positions |
| SnapshotMerge.UnionOrdered | sentience/backends/snapshot.py:344-350 | the union is in sort-key order |
| SnapshotMerge.UnionKeysDistinct | sentience/backends/snapshot.py:330-340 | no two elements of the union share a dedupe key |
| SnapshotMerge.UnionCoversInput | sentience/backends/snapshot.py:330-340 | every input key appears in the union |
| SnapshotMerge.UnionFromInput | sentience/backends/snapshot.py:330-340 | every element of the union comes from some input snapshot |
| SnapshotMerge.UnionKeysExactlyOnce | sentience/backends/snapshot.py:330-340 | every input key appears exactly once in the union |
| SnapshotMerge.UnionBest | sentience/backends/snapshot.py:330-340 | the kept element of a key is unbeaten by any element with that key, and strictly better than every earlier one |
| SnapshotMerge.AbsorbElement | sentience/backends/snapshot.py:330-340 | one loop step keeps the dictionaries equal to the specification table |
| SnapshotMerge.CollectBest | sentience/backends/snapshot.py:330-340 | the collection loop yields the specification's rows |
| SnapshotMerge.MergeSnapshots | sentience/backends/snapshot.py:299-366 | the merge equals MergeSpec |
| FailureArtifacts.DefaultArtifactOptions | sentience/failure_artifacts.py:18-42 | default buffer 15 s, redaction on, clips auto at 8 fps |
| FailureArtifacts.Cutoff | sentience/failure_artifacts.py:243-244 | the cutoff never lies after now |
| FailureArtifacts.KeepRecent | sentience/failure_artifacts.py:243-254 | pruning never adds frames |
| FailureArtifacts.KeepRecentMembers | sentience/failure_artifacts.py:243-254 | a frame is kept exactly when it was buffered and is not older than the cutoff |
| FailureArtifacts.KeepRecentIdempotent | sentience/failure_artifacts.py:243-254 | pruning twice with one cutoff equals pruning once |
| FailureArtifacts.KeepNoneBelow | sentience/failure_artifacts.py:243-254 | frames all older than the cutoff are all dropped |
| FailureArtifacts.KeepRecentIsSuffix | sentience/failure_artifacts.py:243-254 | frames in time order are pruned to a suffix |
| FailureArtifacts.LastSegment | sentience/failure_artifacts.py:399-401 | the text after a path's last separator is a separator-free suffix of it |
| FailureArtifacts.BaseName | sentience/failure_artifacts.py:399-401 | `Path(p).name` holds no separator and is never "." |
| FailureArtifacts.LastSegmentOfJoin | sentience/failure_artifacts.py:399-401 | the text after the last separator of directory/name is the name |
| FailureArtifacts.BaseNameIgnoresTrailing | sentience/failure_artifacts.py:399-401 | a trailing separator or a trailing "." segment does not change the name |
| FailureArtifacts.BaseNameOfJoin | sentience/failure_artifacts.py:399-401 | the base name of directory/name is the name, for a non-empty name other than "." |
| FailureArtifacts.BaseNames | sentience/failure_artifacts.py:399-401 | the manifest lists the base name of each frame path, in order |
| FailureArtifacts.PathsOf | sentience/failure_artifacts.py:317 | the paths of the buffered frames, in order |
| FailureArtifacts.BuildManifest | sentience/failure_artifacts.py:392-409 | dropped frames give a zero count and no list; otherwise the count and names of the frame paths; frames are redacted exactly when kept with a hook set; clip, snapshot and diagnostics appear exactly when written |
| FailureArtifacts.RedactElement | sentience/failure_artifacts.py:269-277 | a password, email or tel element with a value gets a null value and the redacted flag, nothing else changes; other elements are untouched |
| FailureArtifacts.RedactElements | sentience/failure_artifacts.py:268-279 | every element is redacted in place, in order |
| FailureArtifacts.RedactSnapshot | sentience/failure_artifacts.py:261-280 | non-dict payloads and payloads without an elements list are returned as is; otherwise only the elements are replaced by their redacted versions |
| FailureArtifacts.RedactElementIdempotent | sentience/failure_artifacts.py:269-277 | redacting twice equals redacting once |
| FailureArtifacts.FailureArtifactBuffer.constructor | sentience/failure_artifacts.py:193-209 | a new buffer has no frames, no steps and is not persisted |
| FailureArtifacts.FailureArtifactBuffer.RecordStep | sentience/failure_artifacts.py:214-230 | appends exactly the step entry |
| FailureArtifacts.FailureArtifactBuffer.Prune | sentience/failure_artifacts.py:243-254 | the frames become the recent ones under the cutoff |
| FailureArtifacts.FailureArtifactBuffer.AddFrame | sentience/failure_artifacts.py:232-238 | the new frame is appended and then the buffer is pruned |
| FailureArtifacts.FailureArtifactBuffer.FrameCount | sentience/failure_artifacts.py:240-241 | the number of buffered frames |
| FailureArtifacts.FailureArtifactBuffer.Persist | sentience/failure_artifacts.py:282-413 | a second persist does nothing; the first writes the run described by PersistRun and marks the buffer persisted |
| FailureArtifacts.ApplyHook | sentience/failure_artifacts.py:320-341 | no hook keeps everything; a raising hook drops the frames; a returned result overrides only what it sets |
| FailureArtifacts.PersistRun | sentience/failure_artifacts.py:282-413 | fails exactly when redaction raises; the run directory is run id and time; the written snapshot is the hook's when it returns one, else the input redacted when asked; the diagnostics likewise; the frames are the hook's paths or the buffer's, dropped when the hook says so or raises, and redacted exactly when a returned hook keeps them; the manifest names snapshot and diagnostics exactly when written, and a clip exactly when kept frames, a mode other than off, ffmpeg and a made clip meet |
| FailureArtifacts.RedactSnapshotBlanksSensitive | sentience/failure_artifacts.py:261-280 | after redaction every password, email or tel element with a value has that value null |
| FailureArtifacts.PersistRunRedactsSnapshot | sentience/failure_artifacts.py:301-308 | with redaction on and no hook snapshot, the written snapshot holds no sensitive value |
| FailureArtifacts.ManifestListsFrameNames | sentience/failure_artifacts.py:232-238 | the manifest lists each buffered frame's file name |
| BrowserAgent.CaptchaOptionsFor | predicate/agents/browser_agent.py:101-146 | an unknown policy is rejected; abort keeps only the minimum confidence; callback needs a handler and defaults poll to 1 s and timeout to 120 s |
| BrowserAgent.UnsetPolicyAborts | predicate/agents/browser_agent.py:115-123 | an unset policy gives the default options with the configured minimum confidence |
| BrowserAgent.ApplyCaptchaConfigToRuntime | predicate/agents/browser_agent.py:101-146 | a rejected configuration leaves the runtime alone; an accepted one is stored with the retry count reset; step, task and assertion state are as before |
| BrowserAgent.Bullets | predicate/agents/browser_agent.py:97-100 | at most one bullet per item, each starting with "- "; none exactly when every item is empty |
| BrowserAgent.HistorySummary | predicate/agents/browser_agent.py:97-100 | the bullets joined by newlines; empty exactly when every item is empty |
| BrowserAgent.NonEmptyItems | predicate/agents/browser_agent.py:100 | exactly the non-empty items, no more of them than the items |
| BrowserAgent.BulletsOfNonEmptyItems | predicate/agents/browser_agent.py:100 | the i-th bullet is "- " followed by the i-th non-empty item |
| BrowserAgent.BulletsAppend | predicate/agents/browser_agent.py:100 | bullets keep the order of the items: the bullets of a concatenation are the concatenated bullets |
| BrowserAgent.HistorySummaryExtends | predicate/agents/browser_agent.py:97-100 | one more non-empty item adds its bullet as a new last line |
| Text.JoinSnoc | predicate/agents/browser_agent.py:100 | joining one more string adds the separator and the string at the end |
| BrowserAgent.HistoryEntry | predicate/agents/browser_agent.py:263 | a history entry is never empty |
| BrowserAgent.Bounded | predicate/agents/browser_agent.py:260-263 | a bounded history keeps the newest n entries |
| BrowserAgent.BudgetedStep | predicate/agents/browser_agent.py:273-292 | once the vision budget is spent the step runs without vision; otherwise unchanged |
| BrowserAgent.PredicateBrowserAgent.constructor | predicate/agents/browser_agent.py:229-239 | a new agent has an empty history and no vision calls used |
| BrowserAgent.DefaultCaptchaConfigAborts | predicate/agents/browser_agent.py:48-59 | the default `CaptchaConfig()` installs exactly the default abort options |
| BrowserAgent.NewPredicateBrowserAgent | predicate/agents/browser_agent.py:220-243 | a configured captcha is applied to the runtime at construction without a session reset; a rejected one raises, makes no agent and leaves the CAPTCHA state alone; no captcha leaves it alone; step, task and assertions are untouched; a made agent starts empty |
| BrowserAgent.PredicateBrowserAgent.GetHistorySummary | predicate/agents/browser_agent.py:255-258 | empty when history is switched off, else the summary of the history |
| BrowserAgent.PredicateBrowserAgent.RecordStepHistory | predicate/agents/browser_agent.py:260-263 | the entry is appended to the bounded history, which keeps at most history_last_n entries |
| BrowserAgent.PredicateBrowserAgent.Step | predicate/agents/browser_agent.py:265-319 | the step runs budgeted; a vision call is counted exactly when vision was used; the outcome is recorded in the history |
| BrowserAgent.PredicateBrowserAgent.Run | predicate/agents/browser_agent.py:321-339 | the run follows RunTrace: step i runs as the budgeted step under the vision calls used before it, which grow by one exactly for a failed vision step; the history becomes the bounded history of the old entries and one entry per step run; without stop-on-failure every step runs; with it the run stops at the first failure and succeeds exactly when all steps passed |
| BrowserAgent.PredicateBrowserAgent.StepOfRun | predicate/agents/browser_agent.py:330-336 | one step of a run extends the run's bounded history by its entry and counts its vision call |
| BrowserAgent.BoundedSnoc | predicate/agents/browser_agent.py:236 | appending to a bounded history equals bounding the whole list of entries |
| BrowserAgent.RunHistoryGrows | predicate/agents/browser_agent.py:236 | the bounded history of a run after one more step |
| BrowserAgent.RunEntries | predicate/agents/browser_agent.py:330-336 | one history entry per step run, from its goal and result, in order |
| BrowserAgent.RunTraceSnoc | predicate/agents/browser_agent.py:330-336 | a run's trace extended by its next step is a trace |
| BrowserAgent.RunTraceWithinBudget | predicate/agents/browser_agent.py:273-316 | each step of a run counts at most one vision call, and a run that starts within an enabled, positive budget never exceeds it |
| BrowserAgent.SpentBudgetStopsVision | predicate/agents/browser_agent.py:273-292 | a spent budget switches vision off and leaves goal and verifications alone |
| BrowserUsePlugin.DefaultPluginConfig | predicate/integrations/browser_use/plugin.py:38-58 | the default configuration: no key, use_api unset, one bind retry, automatic snapshots and checks, raise on failure |
| BrowserUsePlugin.EffectiveSnapshotOptions | predicate/integrations/browser_use/plugin.py:136-147 | a truthy key fills both key fields; an explicit use_api wins, else a key turns an unset use_api on; nothing else changes |
| BrowserUsePlugin.RuntimeKeepsEffectiveOptions | predicate/integrations/browser_use/plugin.py:117-123 | the runtime built from the effective options keeps them unchanged |
| BrowserUsePlugin.EffectiveOptionsValid | predicate/integrations/browser_use/plugin.py:136-147 | the effective options satisfy the field bounds |
| BrowserUsePlugin.SleepsFrom | predicate/integrations/browser_use/plugin.py:132 | the back-off after failed attempt a is 500·a ms |
| BrowserUsePlugin.Retries | predicate/integrations/browser_use/plugin.py:108 | the retry count is at least 1 |
| BrowserUsePlugin.AsWrittenSleepsAfterLastAttempt | predicate/integrations/browser_use/plugin.py:108-134 | as written, a backend that always fails is retried retries+1 times with a back-off after every attempt, the last one included |
| BrowserUsePlugin.AsWrittenOneRetry | predicate/integrations/browser_use/plugin.py:108-134 | as written, one retry against a failing backend sleeps 0 ms and then 500 ms before raising |
| BrowserUsePlugin.BindAttemptsFacts | predicate/integrations/browser_use/plugin.py:108-134 | binding connects exactly when some attempt succeeds, at the first one; the back-offs are those of the failed attempts before it; exhaustion reports the last error |
| BrowserUsePlugin.CorrectionOnlyDropsFinalSleep | predicate/integrations/browser_use/plugin.py:108-134 | the corrected loop differs from the written one only by the back-off after the last failure |
| BrowserUsePlugin.RunBindAttempts | predicate/integrations/browser_use/plugin.py:108-132 | the retry loop computes the corrected bind schedule; a connection is exactly what the loop as written gives, and on exhaustion the loop as written differs only by one more sleep of `0.5 * n` s after the last failure |
| BrowserUsePlugin.StepGoal | predicate/integrations/browser_use/plugin.py:213-217 | the step goal is the agent's task, then " @ " and the url when there is one |
| BrowserUsePlugin.RunCheck | predicate/integrations/browser_use/plugin.py:278-307 | a check adds one record; the step errs exactly when the check raised or a required check failed; the failing record carries the error type |
| BrowserUsePlugin.ChecksStopAtError | predicate/integrations/browser_use/plugin.py:276-309 | no check runs after an error |
| BrowserUsePlugin.ChecksWithoutFailure | predicate/integrations/browser_use/plugin.py:276-307 | when every check returns and every required check passes, each check has one record and there is no error |
| BrowserUsePlugin.RequiredFailureStopsChecks | predicate/integrations/browser_use/plugin.py:289-307 | a failed required check ends the checks with a verification error naming it, its results including the error record |
| BrowserUsePlugin.RunChecks | predicate/integrations/browser_use/plugin.py:276-309 | the checks loop computes the checks specification |
| BrowserUsePlugin.FailureDecision | predicate/integrations/browser_use/plugin.py:320-341 | an error is raised unless the policy is log, or pause returned; a verification error is raised as is and any other is wrapped with its message and the results |
| BrowserUsePlugin.StepEndBody | predicate/integrations/browser_use/plugin.py:268-309 | a snapshot error stops the step with that error before the checks; otherwise the checks decide |
| BrowserUsePlugin.StepEndOutcome | predicate/integrations/browser_use/plugin.py:255-341 | exactly one step end is emitted, successful exactly when the body raised nothing and carrying the error's text otherwise; the error raised is FailureDecision of the policy, the body's error and its results; never under the log policy |
| BrowserUsePlugin.RequiredCheckFailureRaises | predicate/integrations/browser_use/plugin.py:294-341 | under the raise policy a failed required check raises |
| BrowserUsePlugin.PassingChecksNeverRaise | predicate/integrations/browser_use/plugin.py:276-321 | passing checks never raise and the step is emitted as a success |
| BrowserUsePlugin.WrapStep | predicate/integrations/browser_use/plugin.py:230-253 | the step and end hooks run only after the start hook succeeds; the result succeeds only when all three do; an end hook error wins over the step's result |
| BrowserUsePlugin.SummarizeSnapshot | predicate/integrations/browser_use/plugin.py:434-447 | the summary keeps the url and the first max(0, n) elements, each summarised field by field |
| BrowserUsePlugin.PredicateBrowserUsePlugin.constructor | predicate/integrations/browser_use/plugin.py:77-86 | a new plugin is unbound, with the given or the default configuration |
| BrowserUsePlugin.PredicateBrowserUsePlugin.Bind | predicate/integrations/browser_use/plugin.py:88-134 | a missing session fails; a bound session is kept; otherwise the retry loop runs on the corrected schedule, which agrees with the loop as written up to the sleep after the last failure, and a connection creates a runtime with the effective options and binds the session |
| BrowserUsePlugin.PredicateBrowserUsePlugin.OnStepStart | predicate/integrations/browser_use/plugin.py:202-221 | the step starts exactly when the plugin is or becomes bound; then the plugin is bound to the session, the step counter and runtime step index advance, the goal is set, the records are empty, and the runtime's task and CAPTCHA state are kept (or fresh after a new bind); a failure changes nothing |
| BrowserUsePlugin.PredicateBrowserUsePlugin.OnStepEnd | predicate/integrations/browser_use/plugin.py:255-341 | nothing is emitted exactly when an unbound plugin has no session or its lazy bind fails, and then the binding is unchanged; a successful lazy bind leaves the plugin bound to a fresh runtime; otherwise the outcome is StepEndOutcome |
| ContractsAdapter.SignalOf | predicate/integrations/authority/contracts_adapter.py:34-48 | records with a blank label are skipped; others give a signal with the stripped label, passed or failed status, required flag and a reason only when non-empty |
| ContractsAdapter.ToVerificationEvidence | predicate/integrations/authority/contracts_adapter.py:31-49 | the evidence never has more signals than there are records |
| ContractsAdapter.EvidenceConcat | predicate/integrations/authority/contracts_adapter.py:31-49 | the evidence of concatenated records is the concatenation of their evidence |
| ContractsAdapter.EvidenceSignals | predicate/integrations/authority/contracts_adapter.py:31-49 | one signal per labelled record, each titled by its record's non-blank stripped label |
| ContractsAdapter.BlankLabelsDropped | predicate/integrations/authority/contracts_adapter.py:34-36 | records with blank labels give no evidence |
| ContractsAdapter.RecordsFields | predicate/agent_runtime.py:1318-1359 | each runtime record becomes a dict with label, passed, required and reason |
| ContractsAdapter.RecordSignal | predicate/integrations/authority/contracts_adapter.py:34-48 | a runtime record's signal is its label, pass status, required flag and non-empty reason |
| ContractsAdapter.TwoRecordsExample | tests/test_authority_contracts_adapter.py:42-54 | a passed required "a" and a failed optional "b" with a reason become two signals in that order |
| ContractsAdapter.HashMaterial | predicate/integrations/authority/contracts_adapter.py:80-88 | the hash material is the snapshot's url and timestamp when either is non-empty, else a non-empty step id, else "missing_snapshot"; never empty |
| ContractsAdapter.StateHash | predicate/integrations/authority/contracts_adapter.py:80-88 | the state hash is "sha256:" and the digest of the material |
| ContractsAdapter.SnapshotHashIgnoresStep | predicate/integrations/authority/contracts_adapter.py:80-88 | a snapshot with a url or a timestamp fixes the hash whatever the step id |
| ContractsAdapter.StepIdsHashedApart | predicate/integrations/authority/contracts_adapter.py:80-88 | without a snapshot, distinct non-empty step ids are hashed from distinct material |
| ContractsAdapter.ActionInput | predicate/integrations/authority/contracts_adapter.py:20-28 | the state source defaults to "sdk-python" and tenant and session are unset |
| ContractsAdapter.BuildActionRequest | predicate/integrations/authority/contracts_adapter.py:59-77 | the request copies principal and action, carries the state source and hash, and the runtime's records as verification evidence |
| Json.GetSet | sentience/failure_artifacts.py:274-276 | reading a key just set gives the new value; other keys are unchanged |
| Json.SetFacts | sentience/failure_artifacts.py:274-276 | setting a key makes it present with the value, and setting the same value again changes nothing |
| Text.StripIdempotent | predicate/integrations/authority/contracts_adapter.py:34 | stripping a stripped string changes nothing |

## Left out

- BrowserUsePlugin.RunBindAttempts: runs the corrected schedule from "## Findings"; the sleep of `0.5 * n` s that the written loop takes after its last failed attempt is stated only as a relation to `AsWrittenBindLoop`, not performed.
- BrowserUsePlugin.PredicateBrowserUsePlugin.Bind: uses the corrected schedule of `RunBindAttempts`, so a binding that fails every attempt reports one sleep fewer than the written loop; the ensures relate the two.
- `Snapshot.diagnostics`, `Diagnostics` and `CaptchaDiagnostics` in `models.dfy` are not declared in sentience/models.py (its `Snapshot` is at lines 44-54); they are modelled from how predicate/agent_runtime.py:745-819 reads them.
- FailureArtifacts.PersistRun: frames whose source file is missing are skipped by the copy; the model lists every kept frame path as copied, because file existence is not modelled.
- Browser I/O is not part of this model: snapshots from the extension or the gateway, `evaluate_js` execution, scrolling, tabs, screenshots and file writes. Their results are parameters.
- The tracer, trace events, `emit_step_end` internals and the run id are not modelled. `StepEndEmit` records only what the plugin passes to it.
- The clock is an integer millisecond parameter, and confidences are reals. Float rounding in `int(ts * 1000)` and in `0.5 * attempt` is not modelled.
- `hashlib.sha256`, `json.dumps` and `uuid` are not modelled; the first two are parameters.
- Concurrency is not modelled: the plugin's `asyncio.Lock`, the artifact timer task and `await` interleavings.
- `_wait_until_cleared`, the polling of `eventually`, and `_wait_for_extension_ready` are not modelled. They wait on the browser; only the per-attempt limit and the decision are modelled.
- `_nearest_matches` (difflib similarity) and the `details`/`extra` payloads of records are not modelled.
- ffmpeg clip generation is a boolean outcome. Copying frame files is not modelled.
- `Snapshot.save` is file I/O and is not modelled.
- `RuntimeStep` and the executor of `runtime_agent.py` are not part of this model. A step is represented by the fields the agent rewrites and a run function.
- The browser-use adapter, `PredicateDebugger` and the browser session object are represented by a session identity and a backend factory.
- Runtime.AgentRuntime.constructor: writes the key into a copy of the caller's options object, whereas the source mutates the caller's `SnapshotOptions` in place. The aliasing is not captured.
- CaptchaGate.LowerHits: states that every hit is kept lower-cased, not that nothing else is kept.
- `Text.Lower` and `Text.Strip` cover ASCII letters and ASCII whitespace only. Python's Unicode case mapping and whitespace set are wider.
- MergeOrder.SortRows: `list.sort` is modelled as a stable insertion sort; only its ordering, stability and permutation are stated.
- Check predicates, `eventually` timeouts and the pause prompt are not evaluated. Their outcomes are parameters.
- BrowserUsePlugin.PredicateBrowserUsePlugin.OnStepEnd: the runtime's own effects of the hook are not modelled. These are the snapshot it stores as the last snapshot and the records each check's `once()`/`eventually()` appends through `assert_`; the checks arrive as outcomes.
- BrowserUsePlugin.PredicateBrowserUsePlugin.OnStepStart: the best-effort wait for the extension after `begin_step` is not modelled; it changes no state and its failure is ignored.
- Runtime.AgentRuntime.Assert: the failure-artifact buffer is not part of the runtime model. `Assert` returns the reason it asks the buffer to persist under; the persist, the cleanup and the switch-off under `persist_mode="onFail"` are not modelled.
- The `models.py` copy here declares no `predicate_api_key`, `sentience_api_key`, `goal` or `show_overlay` fields on `SnapshotOptions`. The runtime and plugin code assign them, so `Models.SnapshotOptions` carries them.

## Findings

| source | as written | input that shows it | evidently intended | confidence | as-written member | corrected member |
|---|---|---|---|---|---|---|
| predicate/integrations/browser_use/plugin.py:108-132 | the loop runs `range(max(1, r) + 1)`, so `attempt` is at most `max(1, r)`; the guard `attempt >= max(1, r) + 1` never holds, and the loop sleeps `0.5 * attempt` s after the final failed attempt too | `bind_retries=1` with a backend that always raises: attempts 0 and 1 fail, sleeping 0 s and then 0.5 s before the `RuntimeError` | stop without sleeping after the last attempt (sleeps `[0]`) | high (not executed) | BrowserUsePlugin.AsWrittenOneRetry | BrowserUsePlugin.BindAttemptsFacts |
