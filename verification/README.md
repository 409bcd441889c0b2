# Models of the self-contained logic of the desktop app

This project models the parts of the repository in which logic, not user interface, decides what
happens, and proves what they promise. Each part keeps the form of its source: loops over
variables are methods with invariants, global objects are classes with their fields, expressions
are functions. Every method is proved equal to a function, and the promises are lemmas about that
function, over all inputs or all runs.

| files | what they model |
|---|---|
| `Text`, `Results` | strings, white space of Python and of Rust, lines; optional and fallible values |
| `Headings`, `Changelog*` | the release changelog: shifting headings, masking fences, extracting and upserting an entry |
| `PersonalSync` | the sync runtime: a generation, a status and a pending flag under operations that complete in any order |
| `SyncWorker`, `SyncDrains` | the queue of a sync worker and its passes, and which waiting events are certain to be taken or are lost |
| `PublicMcp` | the MCP runtime: starts, stops and permission changes fenced by a generation, and two discovery documents |
| `RuntimePackage`, `RuntimeClosure`, `RuntimeBundle` | the packager: finding libraries, the worklist, roots by name, final checks |
| `NaturalOrder` | the comparison of connection names |
| `History` | the bounded session history and its compaction |
| `FencedBlocks` | code blocks in a reply |
| `SingleInstance` | the startup request as bytes |
| `ModelStream` | the stream of model events and the merging of tool calls |
| `AgentIds` | ids and environments of agents |

`dafny verify dfyconfig.toml` checks everything.

## How the parts are modelled

Changelog texts are lists of lines that end in a newline. The version pattern and the tag pattern
are automata that read a line from left to right. The entries of a file are read once by offsets,
as the script does, and once line by line; the two readings are proved equal, and the promises
use the second. `Placed` says that no fence is open where an entry is inserted, `MarkerEndsLine` that
only white space follows the marker on its line. `Clean` says that the last line that is not blank
does not become a version heading by losing trailing white space other than spaces and tabs. A file
is `Regular` around an entry when all three hold there. `Ended` is a text with its trailing white
space cut down to one newline, as the script leaves it.

The two runtimes are transition systems. An operation that was spawned is in flight under the
generation it took; its completion is an event that may come at any time, in any order. A drain has
two steps before that, each an event of its own: it begins, and takes what is pending unless another
task is in a pass over the same worker, and its pass ends. The watcher spawns drains as well, which
have no generation. A worker that the runtime drops or replaces stays in the model, because drains
spawned for it go on. For the runtime a worker is two counts, of events enqueued and events taken,
with the task that is in a pass; the class in `SyncWorker` keeps the set of pending events and
proves that something is pending exactly when an event counted has not been taken.
For the MCP runtime every file operation may fail, and so may the building of the tool registry.

The packager works on a `World` that answers what paths resolve to, what the ELF headers say and
what the loader cache holds. A `Schedule` chooses which entry of the queue is taken next; the
script's own is `FIFO`. Reachability is by paths of needed libraries and does not mention the
worklist.

Tokens are what the name comparison compares: a digit run by length and value, any other
character by its lower case. The value is cut off at 2^128 - 1 as the saturating arithmetic does.

The patterns, limits, names and messages that the source writes as constants are stated once more in
plain characters and figures, apart from the definitions that use them (`ChangelogPatterns`,
`ChangelogWritten`, and the lemmas `LimitsAre`, `EndOfStart`, `BaseIs`, `PlainBlock` and others).

Where the code does less than its description, the model follows the code, and a lemma says
exactly when the description holds:

- Shifting down stops at level 5 while shifting back starts from level 6, so a level-6 heading
  does not come back (`Headings.ShiftBack`).
- Text between the insertion marker and the next heading becomes part of the new entry, and is
  taken from the entry above (`ChangelogRoundTrip.RoundTrip`, `ChangelogOthers.OtherUnchangedIff`).
- Notes that leave a fence open hide the entries below, and a marker inside a fence hides the new
  entry (`ChangelogFenced.OpenFenceHides`, `ChangelogFenced.WrittenHeadingIsFoundIff`,
  `ChangelogFenced.FencedMarkerHides`).
- An event enqueued while a connection test runs is left waiting with the flag set, and a manual
  request sets no flag at all. A drain that begins while another task is in a pass over the same
  worker takes nothing, so an event can be left waiting although a drain was started for it
  (`SyncDrains.AutoSyncIsDrained`, `SyncDrains.ManualSyncIsDrained`).
- A change of configuration does not advance the generation, so an older operation can overwrite the
  new status (`PersonalSync.ReconfigureFencesIff`).
- A disable, a failed start and a new configuration drop the worker and forget the events that wait in
  it, unless a drain of it has still to begin (`SyncDrains.ForgetsIff`).
- A removal that fails, or a publication that stops between its two files, leaves a document without
  a runtime (`PublicMcp.DescribedStepIff`).
- Eviction can part an observation from its call (`History.RecordKeepsCompleteIff`).
- Comparison of digit runs is numeric only up to leading zeros and cut-off values
  (`NaturalOrder.NumericOrderIff`).
- A code block without a line of code is not closed by the next fence: `CodeOk` in
  `FencedBlocks.DecomposeIff` is the exact condition on code.
- A whole tool call without index and id is added again each time it is sent
  (`ModelStream.SnapshotAgainIff`), and arguments that spell an empty object are dropped when
  another fragment follows, an empty one included (`ModelStream.FragmentsAssembleIff`). A fragment
  without both is a call of its own (`ModelStream.AnonymousStaysAlone`).

## Model

| member | source | states |
|---|---|---|
| `ChangelogRoundTrip.RoundTrip` | script/changelog.py:143-216 | With the marker outside fences: extracting what was upserted gives the stripped notes and a newline exactly when the notes have no visible level-6 heading; behind the entry there is nothing, or closed fences and only white space up to the next heading; and nothing around the entry repeats a tag or has an impossible date |
| `ChangelogTwice.UpsertTwice` | script/changelog.py:178-216 | With the marker outside fences: upserting the same release twice is upserting it once, byte for byte, exactly when the result has one marker, nothing around the entry is ambiguous, and behind the entry there is nothing, or closed fences and a version heading at once |
| `ChangelogOthers.OthersUnchanged` | script/changelog.py:178-216 | In a regular file and without an open fence behind the entry: for every other tag extraction gives the same result, success or failure, before and after an upsert |
| `ChangelogFenced.OpenFenceHides` | script/changelog.py:195-216 | With a fence left open over a text without fence lines all entries behind are hidden: another tag whose entry stands in front reads the same exactly as with closed fences, any other exactly when it had no entry |
| `ChangelogFenced.WrittenHeadingIsFoundIff` | script/changelog.py:130-216 | Whatever the notes hold: the heading that is written stands where the front ends, and is among the headings found in the result exactly when no fence is open in front of it |
| `ChangelogFenced.FencedMarkerHides` | script/changelog.py:210-216 | An entry without fence lines that is inserted where a fence is open cannot be read back |
| `ChangelogRoundTrip.UsuallyUnambiguous` | script/changelog.py:130-140 | In a file whose marker ends its line and whose white space around the entry can be cut, nothing around the entry becomes ambiguous |
| `ChangelogRoundTrip.GapIsBlank` | script/changelog.py:211-216 | When the text between the new entry and the next heading is blank: an unclosed fence or any text below the marker spoils it |
| `ChangelogRoundTrip.InsertView` | script/changelog.py:210-216 | Inserting at a marker that ends its line keeps the entries above and below, and names the text below the marker that changes owner |
| `Headings.ShiftBack` | script/changelog.py:56-91 | Shifting by +1 and then by -1 is the identity exactly when no level-6 heading stands outside fences |
| `Headings.DeepestIsLost` | script/changelog.py:81-87 | The concrete loss: `###### a` comes back as `##### a`, because +1 stops at level 5 while -1 starts from level 6 |
| `Headings.ShiftedLine` | script/changelog.py:76-89 | Line by line: down moves the levels 2 to 5 by one number sign and up the levels 3 to 6; other levels, fences, lines in fences and lines that are no headings stay |
| `Headings.IsHeadingIff` | script/changelog.py:81-87 | A heading is a run of number signs with a space or tab behind it |
| `Headings.FenceMarkerIff` | script/changelog.py:63-66 | A fence is a line that begins with three or more backticks or tildes behind any indentation |
| `Headings.BlockIsClosedBy` | script/changelog.py:67-75 | A block goes from its fence to the first later one of the same character that is at least as long |
| `Headings.ShiftKeepsFences` | script/changelog.py:63-91 | Shifting leaves the fence state after the text as it was, so masking and shifting agree on what is fenced |
| `Headings.MaskAt` | script/changelog.py:94-127 | Masking keeps every offset and newline and turns exactly the characters of fenced lines into spaces |
| `Headings.MaskIdempotent` | script/changelog.py:94-127 | A masked text has no fence left; masking it again changes nothing |
| `ChangelogPatterns.TagIff` | script/changelog.py:17 | A tag is a `v`, three numbers with dots between, and perhaps a dot or dash with more behind it |
| `ChangelogPatterns.NormalizeTagIff` | script/changelog.py:28-36 | A tag may have white space around it and may lack its `v`; everything else is refused |
| `ChangelogPatterns.TagsAreTakenAlike` | script/changelog.py:28-36 | Extraction and upsert give the same for every form of a tag, and call a tag invalid exactly when it is no form of one |
| `ChangelogPatterns.VersionHeadingIff` | script/changelog.py:18-21 | A line is a version heading exactly when it is spelled as one, spaces and tabs at its end allowed |
| `ChangelogPatterns.IsoDateIff` | script/changelog.py:39-46 | A date is accepted exactly when it writes a day of the calendar from year 1 to year 9999 |
| `ChangelogPatterns.HasSectionIff` | script/changelog.py:52-54 | Notes have a section exactly when one of their lines is its level-2 heading |
| `ChangelogPatterns.ValidNotesIff` | script/changelog.py:49-54 | Notes are valid exactly when they have both sections, and blank ones are told apart |
| `ChangelogWritten.InsertedText` | script/changelog.py:210-216 | The text that an insertion writes, character by character |
| `ChangelogWritten.ReplacedText` | script/changelog.py:199-208 | The text that a replacement writes, character by character |
| `ChangelogWritten.FirstFailureDecides` | script/changelog.py:178-198 | When several checks of an upsert fail, the first of them decides the error |
| `ChangelogWritten.ExtractionFails` | script/changelog.py:143-158 | The error of an extraction, by what its entries hold |
| `Text.SpacesAre` | script/changelog.py:29 | White space of Python and of Rust, character by character |
| `Changelog.MaskedMatches` | script/changelog.py:130-131 | Masking first and matching the version pattern afterwards finds exactly the headings that fence tracking finds |
| `Changelog.MatchesInOrder` | script/changelog.py:130-140 | The matches lie inside the text, in order and without overlap |
| `ChangelogUpsert.VersionMatchesIs` | script/changelog.py:130-140 | The matches are those outside fences, in order and within bounds, or else the error: a repeated tag before an impossible date |
| `ChangelogEntries.MatchesDelimitEntries` | script/changelog.py:147-151 | The offsets that the script slices by cut the file into a preamble and exactly the entries read line by line |
| `ChangelogEntries.EntriesConcat` | script/changelog.py:147-151 | Text put behind a file extends its last entry up to the next heading and adds the entries after it |
| `ChangelogSplice.ShiftedHasNoEntries` | script/changelog.py:195-197 | Notes whose headings are pushed down hold no version heading, whatever the notes are |
| `ChangelogSplice.WrittenHeading` | script/changelog.py:196-197 | The heading that is written is matched again, with the same tag and date |
| `ChangelogTrim.TrimText` | script/changelog.py:203-216 | Stripping the end of a text changes no entry but for white space at the ends of bodies |
| `ChangelogUpsert.ExtractByEntries` | script/changelog.py:143-158 | Extraction by offsets is extraction from the list of entries, errors included |
| `ChangelogUpsert.UpsertIs` | script/changelog.py:178-216 | When an upsert succeeds, exactly, and that the result is the entry spliced between what precedes and what follows it |
| `ChangelogRoundTrip.NotesComeBack` | script/changelog.py:151-156 | The notes inside one written entry come back exactly under the conditions above |
| `ChangelogRoundTrip.ReplaceView` | script/changelog.py:199-208 | Replacing keeps the entries above and below the replaced one and swallows nothing |
| `ChangelogOthers.OtherUnchangedIff` | script/changelog.py:210-216 | The exact condition: with closed fences another tag changes, success or failure, only if it is the entry directly above the marker, there is text below the marker, and not both with and without that text a section is missing |
| `ChangelogOthers.OtherNotesIff` | script/changelog.py:151-156 | More text in a body that ends its line goes unnoticed exactly when a section is missing with it and without it |
| `ChangelogOthers.OtherNotes` | script/changelog.py:151-156 | More text behind a body always means different notes, if the longer body has notes |
| `ChangelogMarkers.MarkersOfResult` | script/changelog.py:186-193 | The result has the markers of the text around the entry and those in the notes, which decides whether it can be upserted again |
| `ChangelogMarkers.InsertKeepsMarker` | script/changelog.py:186-216 | Inserting notes without the marker leaves exactly one marker |
| `ChangelogFirst.FirstRelease` | script/changelog.py:178-216 | In a changelog that holds only the marker every valid first release can be written, and its notes come back exactly without a visible level-6 heading; so the conditions of the promises can all be met |
| `ChangelogScript.TransformHeadings` | script/changelog.py:56-91 | The loop with its two fence variables computes the shift |
| `ChangelogScript.MaskFencedBlocks` | script/changelog.py:94-127 | The loop with its two fence variables computes the mask |
| `ChangelogScript.ExtractReleaseNotes` | script/changelog.py:143-158 | The search over the matches computes the extraction that the promises are about |
| `ChangelogScript.UpsertRelease` | script/changelog.py:178-216 | The checks in their order and the search over the matches compute the upsert that the promises are about |
| `PersonalSync.NeverStuckSyncing` | main/src/personal_sync_runtime.rs:899-930 | In every run the status is `Syncing` only while the operation that holds the current generation is in flight, so it never sticks |
| `PersonalSync.DisableIsFinal` | main/src/personal_sync_runtime.rs:577-583 | After a disable nothing that happens without a change of settings, no late completion either, changes the status |
| `PersonalSync.DisableFencesOlder` | main/src/personal_sync_runtime.rs:577-583 | Even after sync is enabled again a task begun before the disable never writes its result |
| `PersonalSync.ReconfigureFencesIff` | main/src/personal_sync_runtime.rs:553-575 | A reconcile to a new configuration protects the status it sets from an older operation exactly when that does not hold the generation, or ends with the same status, and starts no drain for the flag |
| `PersonalSync.ReconfigureFencesLater` | main/src/personal_sync_runtime.rs:553-575 | Over every run after it: an older operation still writes its result exactly when it held the generation and nothing has begun or been disabled since |
| `SyncDrains.ForgetsIff` | main/src/personal_sync_runtime.rs:548-586 | Waiting events are lost for good exactly when the runtime is replaced or dropped, by a disable and by a failed start as well, and no drain of the old worker has still to begin; after such a drop they are certain to be taken exactly when one has and no task is in a pass |
| `SyncDrains.NeverTakesIff` | main/src/personal_sync_runtime.rs:728-751 | Over every later run: a worker with waiting events never takes one again exactly when it is not that of the runtime and no drain of it has still to begin |
| `SyncDrains.DropsIff` | main/src/personal_sync_runtime.rs:548-586 | A step takes the worker from a running runtime exactly when it is a reconcile with sync off, not configured or newly configured |
| `SyncDrains.GuaranteedIff` | main/src/personal_sync_runtime.rs:700-751 | Exactly when a worker is certain to take every event, in whatever order drains begin, passes end and operations complete |
| `SyncDrains.AutoSyncIsDrained` | main/src/personal_sync_runtime.rs:700-722 | An automatic event is certain to be taken exactly when nothing is syncing and no task is in a pass, or the sole drain is syncing, or a drain has yet to begin and no task is in a pass |
| `SyncDrains.ManualSyncIsDrained` | main/src/personal_sync_runtime.rs:106-121 | A manual request sets no flag: while something is syncing it depends on a flag set by an earlier automatic event, or on a drain that has yet to begin |
| `SyncDrains.CompletionsEnd` | main/src/personal_sync_runtime.rs:913-930 | Whatever is in flight comes to its end: a bound on the number of beginnings, ends of passes and completions |
| `SyncDrains.LostBehindConnectionTest` | main/src/personal_sync_runtime.rs:81-104 | The concrete lost wake-up: an event enqueued during a connection test is left with the flag set and no drain |
| `SyncDrains.LostBehindWatcher` | crates/core/src/cloud_sync/personal/worker.rs:144-168 | Another: an event enqueued during a pass of the watcher gets a drain that finds nothing to take, and is left without flag and drain |
| `SyncDrains.FreshRuntimeIsAwake` | main/src/personal_sync_runtime.rs:553-569 | A runtime that has just been started satisfies the invariant that `NoLostWakeUp` starts from |
| `SyncDrains.NoLostWakeUp` | main/src/personal_sync_runtime.rs:700-751 | From a fresh runtime, in every run of automatic events, passes and completions, whatever waits has a drain in flight that has yet to begin or will see the flag, and at rest nothing waits |
| `SyncWorker.PersonalSyncWorker.Enqueue` | crates/core/src/cloud_sync/personal/worker.rs:136-142 | Puts the event into the set and remembers that it came during a pass; the count of waiting events follows |
| `SyncWorker.PersonalSyncWorker.BeginDrain` | crates/core/src/cloud_sync/personal/worker.rs:154-163 | Takes everything pending, unless a pass is going on or nothing is pending |
| `SyncWorker.PersonalSyncWorker.FinishDrain` | crates/core/src/cloud_sync/personal/worker.rs:165-172 | Ends the pass and asks for a full scan if anything came in during it |
| `SyncWorker.DuringAPass` | crates/core/src/cloud_sync/personal/worker.rs:136-172 | What comes in during a pass is left for the next one, with one scan that the end of the pass adds |
| `PersonalSync.EnqueuesIff` | main/src/personal_sync_runtime.rs:700-722 | Which requests add an event to a worker, exactly: automatic ones only with sync and automatic sync on and a runtime, manual ones only to a runtime with the configuration of the settings |
| `PersonalSync.PassEnqueues` | crates/core/src/cloud_sync/personal/worker.rs:165-172 | The end of a pass adds a scan exactly when anything came in during it |
| `PersonalSync.BeginsIff` | main/src/personal_sync_runtime.rs:81-137 | Which requests and completions begin an operation, exactly, and whether it drains |
| `PersonalSync.RefusedRequests` | main/src/personal_sync_runtime.rs:189-213 | What a request that begins nothing does to the status |
| `PersonalSync.FlagIs` | main/src/personal_sync_runtime.rs:700-722 | Only an automatic event sets the flag; the completion of a drain and a disable clear it |
| `PersonalSync.WatcherDrains` | main/src/personal_sync_runtime.rs:776-797 | The watcher of a runtime that syncs by itself spawns a drain that neither status nor flag tell of |
| `PersonalSync.ReconcileIs` | main/src/personal_sync_runtime.rs:548-586 | What a reconcile leaves, in each of its four cases |
| `PersonalSync.BeforeTheFirst` | main/src/personal_sync_runtime.rs:56-72 | Before the first reconcile nothing syncs, runs or waits |
| `PersonalSync.PersonalSyncRuntime.Begin` | main/src/personal_sync_runtime.rs:899-904 | Takes the next generation and sets `Syncing` |
| `PersonalSync.PersonalSyncRuntime.StartRuntimeDrain` | main/src/personal_sync_runtime.rs:728-751 | Starts a drain unless sync is off, busy or not running |
| `PersonalSync.PersonalSyncRuntime.Finish` | main/src/personal_sync_runtime.rs:906-911 | Writes the result only if the generation is current; leaves the flag alone |
| `PersonalSync.PersonalSyncRuntime.FinishAndDrain` | main/src/personal_sync_runtime.rs:913-930 | Clears the flag whatever the generation and starts the next drain if it was set |
| `PersonalSync.PersonalSyncRuntime.OnCompletion` | main/src/personal_sync_runtime.rs:906-930 | The completion of an operation in flight is the transition of the model |
| `PersonalSync.PersonalSyncRuntime.BeginDrain` | crates/core/src/cloud_sync/personal/worker.rs:144-163 | The drain of a task begins: its worker is in the task's pass, or has nothing for it |
| `PersonalSync.PersonalSyncRuntime.FinishDrain` | crates/core/src/cloud_sync/personal/worker.rs:148-172 | The pass of a task ends |
| `PersonalSync.PersonalSyncRuntime.OnWatcherEvent` | main/src/personal_sync_runtime.rs:776-797 | The watcher enqueues and spawns a drain of its own, whatever the status |
| `PersonalSync.PersonalSyncRuntime.ReconcileRuntime` | main/src/personal_sync_runtime.rs:548-586 | Start, keep or stop the runtime as the settings say |
| `PersonalSync.PersonalSyncRuntime.Test` | main/src/personal_sync_runtime.rs:81-104 | A connection test begins an operation that ends without draining |
| `PersonalSync.PersonalSyncRuntime.Resolve` | main/src/personal_sync_runtime.rs:189-231 | Conflict resolution begins one too, unless a storage is missing |
| `PersonalSync.PersonalSyncRuntime.Sync` | main/src/personal_sync_runtime.rs:106-137 | A manual sync enqueues for the running worker, or scans once without one |
| `PersonalSync.PersonalSyncRuntime.EnqueueAutoSyncEvent` | main/src/personal_sync_runtime.rs:700-722 | An automatic event is enqueued and either starts a drain or sets the flag |
| `PublicMcp.AlwaysSound` | main/src/public_mcp_runtime.rs:200-366 | Over all interleavings of reconciles, successful and failed starts: a runtime is present exactly with an active configuration and a running status; it has the configuration and permission of the latest reconcile; both documents describe it; activated generations strictly increase |
| `PublicMcp.StepKeepsSound` | main/src/public_mcp_runtime.rs:200-366 | Every single transition keeps that |
| `PublicMcp.NeverStuckStarting` | main/src/public_mcp_runtime.rs:302-334 | With no start in flight the status is not `Starting` |
| `PublicMcp.SupersededStartIsIgnored` | main/src/public_mcp_runtime.rs:302-311 | A start begun before a later start or stop never becomes live and changes nothing when it ends |
| `PublicMcp.BecomesLiveIff` | main/src/public_mcp_runtime.rs:302-329 | A start that succeeds becomes live exactly when its generation is current and both documents are written |
| `PublicMcp.PermissionAlone` | main/src/public_mcp_runtime.rs:218-235 | Reconciling a live runtime to another permission changes that and nothing else |
| `PublicMcp.KeepsGenerationIff` | main/src/public_mcp_runtime.rs:200-235 | A reconcile keeps the generation exactly when it is enabled and a runtime is live with the same mode and exposure |
| `PublicMcp.OtherwiseRestarts` | main/src/public_mcp_runtime.rs:237-300 | Any other reconcile stops what is live, and starts anew if it is enabled and the registry does not fail |
| `PublicMcp.EndOfStart` | main/src/public_mcp_runtime.rs:302-366 | What the end of a current start leaves, with the names that the two documents carry |
| `PublicMcp.FirstReconcile` | main/src/public_mcp_runtime.rs:200-216 | At first nothing is live or shown, and the first start is number one |
| `PublicMcp.DescribedStepIff` | main/src/public_mcp_runtime.rs:291-366 | Exactly when a step keeps both documents in step with the runtime: a reconcile unless it drops a runtime and a removal fails, a start unless it is current and stops between its two files |
| `PublicMcp.AlwaysDescribedIff` | main/src/public_mcp_runtime.rs:200-366 | Over a whole run the documents exist exactly while a runtime is live if and only if every step keeps them so |
| `PublicMcp.PublicMcpRuntime.Advance` | main/src/public_mcp_runtime.rs:291-300 | The next generation drops the runtime, its configuration and its documents and is `Starting` |
| `PublicMcp.PublicMcpRuntime.Stop` | main/src/public_mcp_runtime.rs:336-347 | A stop advances the generation as well and ends `Disabled` |
| `PublicMcp.PublicMcpRuntime.UpdateWithoutRestart` | main/src/public_mcp_runtime.rs:218-235 | A change of permission alone reaches the live runtime; anything else is refused without effect |
| `PublicMcp.PublicMcpRuntime.Start` | main/src/public_mcp_runtime.rs:237-285 | A registry error fails the new generation, otherwise its start is in flight |
| `PublicMcp.PublicMcpRuntime.ReconcileRuntime` | main/src/public_mcp_runtime.rs:200-216 | Stop, update or start, in this order of preference |
| `PublicMcp.PublicMcpRuntime.PublishDocuments` | main/src/public_mcp_runtime.rs:357-366 | The canonical document is written before the legacy one, and the first failure ends it |
| `PublicMcp.PublicMcpRuntime.OnStarted` | main/src/public_mcp_runtime.rs:302-329 | Activation checks the generation, publishes and only then installs the runtime |
| `PublicMcp.PublicMcpRuntime.OnStartFailed` | main/src/public_mcp_runtime.rs:331-334 | A failure is recorded only for the current generation |
| `RuntimePackage.ResolveBySource` | script/package-linux-portable.py:271-296 | A library is looked for under the search paths, then in the loader cache, then in the directories of the system; the first suitable file wins, and none is found exactly when none of the three has one |
| `RuntimePackage.SourceBySource` | script/package-linux-portable.py:561-568 | The same for what a file needs, under its own search paths, and for roots, which have none |
| `RuntimePackage.ResolveLibrary` | script/package-linux-portable.py:262-296 | The loop with its set of files already turned down finds what the specification finds |
| `RuntimePackage.FirstSuitableIff` | script/package-linux-portable.py:276-296 | Nothing is found exactly when no candidate is a regular file for the machine; otherwise the first such candidate is |
| `RuntimeClosure.ReachIsLeast` | script/package-linux-portable.py:551-584 | What is reachable is the least set that holds the roots and what its files need |
| `RuntimeClosure.DrainIff` | script/package-linux-portable.py:551-584 | Whatever the order, a drain succeeds exactly when everything reachable is fine and consistent; it has then scanned exactly what is reachable |
| `RuntimeClosure.DrainOrderIsIrrelevant` | script/package-linux-portable.py:626-658 | Within a drain neither success nor the scanned files nor the contents by name depend on the order |
| `RuntimeClosure.AddRequiredIff` | script/package-linux-portable.py:586-608 | The libraries loaded at run time are added exactly when all are found and none contradicts |
| `RuntimeClosure.AddOptionalKeepsInv` | script/package-linux-portable.py:610-624 | The optional ones added are those that nothing has asked for and that are found; this never fails |
| `RuntimeBundle.BundleIff` | script/package-linux-portable.py:544-667 | There is a bundle exactly on a machine that allows one, and then it is complete: scanned is the closure, every request is bound to its contents, every bundled file except the interpreter has been scanned |
| `RuntimeBundle.NeedsAreBundled` | script/package-linux-portable.py:551-584 | Of every scanned file each needed name is in the bundle, with the contents of the file it stands for, which has been scanned too |
| `RuntimeBundle.NamedLibraries` | script/package-linux-portable.py:586-668 | A bundle holds the C library, the interpreter, the three libraries loaded at run time and every optional one that is found |
| `RuntimeBundle.FirstFaultDecides` | script/package-linux-portable.py:561-584 | Of the names a file needs the first that cannot be had decides the error |
| `RuntimeBundle.ScanFailsBy` | script/package-linux-portable.py:552-560 | A file for another machine, or one that cannot be read, fails by itself |
| `RuntimeBundle.LastErrors` | script/package-linux-portable.py:660-668 | The final checks in their order: the interpreter, then the C library |
| `RuntimeBundle.OrderIsIrrelevant` | script/package-linux-portable.py:544-667 | The orders of both queues change neither the outcome nor the contents |
| `RuntimeBundle.ScanFirst` | script/package-linux-portable.py:552-584 | One turn of the worklist loop with the loop over needed names |
| `RuntimeBundle.DrainQueue` | script/package-linux-portable.py:551-584 | The loop until the queue is empty ends and computes the first-in-first-out drain |
| `RuntimeBundle.AddRoots` | script/package-linux-portable.py:586-624 | The two loops over names between the drains |
| `RuntimeBundle.BuildBundle` | script/package-linux-portable.py:544-667 | The phases of the script one after the other compute the bundle |
| `NaturalOrder.NaturalCmp` | main/src/connection_sort.rs:53-77 | The loop over two iterators computes the lexicographic order on tokens |
| `NaturalOrder.CompareNumberRuns` | main/src/connection_sort.rs:80-90 | Consumes both runs and compares length first, then value |
| `NaturalOrder.TakeNumberRun` | main/src/connection_sort.rs:92-106 | Consumes exactly the leading digits and returns their number and their decimal value cut off at 2^128 - 1 |
| `NaturalOrder.RunsOfOneLength` | main/src/connection_sort.rs:92-106 | Runs of one length compare as the numbers they spell, until both have reached 2^128 - 1 |
| `NaturalOrder.LargestIs` | main/src/connection_sort.rs:92-106 | The largest value is one less than the 128th power of two |
| `Text.LowerIs` | main/src/connection_sort.rs:68 | Lower case is that of ASCII letters and of nothing else |
| `NaturalOrder.OrderOfMixed` | main/src/connection_sort.rs:67-74 | Where a digit meets another character the characters alone decide, which needs the digits to be consecutive codes |
| `NaturalOrder.EqualIffSameTokens` | main/src/connection_sort.rs:53-77 | Names are equal exactly when their token lists are; so every name equals itself |
| `NaturalOrder.Reversed` | main/src/connection_sort.rs:53-77 | Swapping the names reverses the result |
| `NaturalOrder.Transitive` | main/src/connection_sort.rs:53-77 | The order is transitive, and strict as soon as one step is |
| `NaturalOrder.CaseIsIgnored` | main/src/connection_sort.rs:67-69 | Lowering the ASCII letters of either name changes no comparison |
| `NaturalOrder.NumericOrderIff` | main/src/connection_sort.rs:80-106 | Two runs compare as the numbers they spell, except exactly for leading zeros that outweigh the value and for two values that are both cut off |
| `NaturalOrder.DottedOrder` | main/src/connection_sort.rs:53-106 | Lists of numbers up to 2^128 - 1, printed in decimal with dots between, compare as the lists do |
| `History.Boundary` | crates/agent_runtime/src/history.rs:218-256 | A cut that splits no group, and the last one at or before the wanted position |
| `History.BoundaryIsIdempotent` | crates/agent_runtime/src/history.rs:218-256 | Moving to the boundary twice is moving once |
| `History.BoundaryIsMonotone` | crates/agent_runtime/src/history.rs:218-256 | A later position never has an earlier boundary |
| `History.RetainedIs` | crates/agent_runtime/src/history.rs:208-216 | How much a compaction keeps: at least what was asked for, and no more exactly when a cut there splits no group; nothing counts as one entry, everything as all but one |
| `History.CompactedIs` | crates/agent_runtime/src/history.rs:181-201 | What a compaction leaves, and when it is refused |
| `History.GroupsStayWhole` | crates/agent_runtime/src/history.rs:218-256 | A cut wanted inside reasoning, calls and their observations is moved to where they begin |
| `History.TextMayBeCut` | crates/agent_runtime/src/history.rs:218-256 | Before a text entry and behind one the cut stays where it is wanted |
| `History.KeepingMoreRetainsMore` | crates/agent_runtime/src/history.rs:208-216 | Asking for more never keeps less, and at least what was asked for is kept |
| `History.CompactionKeepsComplete` | crates/agent_runtime/src/history.rs:181-201 | If every observation follows its call within an uncut group, it still does after a compaction |
| `History.RecordKeepsCompleteIff` | crates/agent_runtime/src/history.rs:85-91 | Recording keeps every observation with its call exactly when the new entry has its call, if it needs one, and the entry that is evicted is no call or a spare one |
| `History.EvictionOrphans` | crates/agent_runtime/src/history.rs:85-91 | The concrete loss: an eviction that leaves an observation without its call |
| `History.EvictionKeepsCompleteIff` | crates/agent_runtime/src/history.rs:85-91 | Dropping the oldest entry keeps every observation with its call exactly when all that it answers is answered by another call |
| `History.RunIsSuffix` | crates/agent_runtime/src/history.rs:85-201 | In every run of recorded entries and compactions the history stays within its limit and is the end of everything recorded behind at most one summary |
| `History.RuntimeHistory.Record` | crates/agent_runtime/src/history.rs:85-91 | Appends and drops the oldest above the limit |
| `History.RuntimeHistory.CompactOldItems` | crates/agent_runtime/src/history.rs:181-201 | Replaces everything before the split by one summary, or changes nothing |
| `History.RuntimeHistory.CompactionPrefix` | crates/agent_runtime/src/history.rs:203-206 | The prefix and the retained tail are together the old history |
| `History.RuntimeHistory.CompactionToolBoundary` | crates/agent_runtime/src/history.rs:218-256 | The backward loops over observations and calls and the step over reasoning find the last safe cut |
| `FencedBlocks.ExtractFencedCodeBlocks` | crates/ai_chat_view/src/code_block_parse.rs:9-37 | The loop with its cursor ends and returns the blocks of the one decomposition of the text |
| `FencedBlocks.DecomposeIff` | crates/ai_chat_view/src/code_block_parse.rs:9-37 | Rendering and scanning are inverse: a document is well formed and renders to a text exactly when it is what the scan finds |
| `FencedBlocks.PlainBlock` | crates/ai_chat_view/src/code_block_parse.rs:9-37 | In plain characters: three backticks open a block and three at the beginning of a line close it |
| `FencedBlocks.NoPartIff` | crates/ai_chat_view/src/code_block_parse.rs:12-25 | The scan stops exactly when no fence is followed by a line end and later by a closing fence |
| `FencedBlocks.BlocksAreDelimited` | crates/ai_chat_view/src/code_block_parse.rs:12-35 | On any text the blocks are in bounds, between fences, disjoint and in order |
| `FencedBlocks.EmptyBlockIsNotClosed` | crates/ai_chat_view/src/code_block_parse.rs:23-25 | The fence that follows an opening line at once never closes the block: it belongs to the code, and without a later fence there is no block |
| `FencedBlocks.LanguageIsFirstWord` | crates/ai_chat_view/src/code_block_parse.rs:39-44 | The language is the first word of the info text, in lower case |
| `FencedBlocks.NoLanguageIff` | crates/ai_chat_view/src/code_block_parse.rs:39-44 | There is no language exactly when the info text is all white space |
| `SingleInstance.Bijection` | main/src/windows_single_instance.rs:51-103 | A payload is accepted as a request exactly when the request is encoded as that payload |
| `SingleInstance.EncodeIff` | main/src/windows_single_instance.rs:51-70 | Encoding succeeds exactly when the count, every path and the total are within their limits |
| `SingleInstance.LimitsAre` | main/src/windows_single_instance.rs:51-70 | The limits in figures: 256 paths, 16384 units in a path, 4194304 bytes in all |
| `SingleInstance.LowestByteFirst` | main/src/windows_single_instance.rs:142-146 | Numbers are written with their lowest byte first |
| `SingleInstance.UnitsInPlace` | main/src/windows_single_instance.rs:106-133 | Each unit of a path is written at its place, its lower byte first |
| `SingleInstance.FirstFlawDecides` | main/src/windows_single_instance.rs:72-103 | Behind the paths that are in order, what is left of a payload decides the error |
| `SingleInstance.PayloadIsChecked` | main/src/windows_single_instance.rs:72-81 | The size of a payload and its count are checked before any path |
| `SingleInstance.EncodeError` | main/src/windows_single_instance.rs:51-70 | Otherwise the error names the limit that the first offending path passes |
| `SingleInstance.DecodeIff` | main/src/windows_single_instance.rs:72-103 | A payload is accepted exactly when it is the wire form of an encodable request |
| `SingleInstance.PathBijection` | main/src/windows_single_instance.rs:106-133 | Paths of 16-bit units and their little-endian bytes correspond one to one; an odd number of bytes is refused |
| `SingleInstance.EncodeRequest` | main/src/windows_single_instance.rs:51-70 | The loop with its growing payload computes the encoding, errors included |
| `SingleInstance.ReadU32` | main/src/windows_single_instance.rs:148-159 | Reads four bytes and moves the cursor only if they are there |
| `SingleInstance.DecodeRequest` | main/src/windows_single_instance.rs:72-103 | The loop with its cursor computes the decoding, errors included |
| `ModelStream.CompleteStream` | crates/ai_chat_view/src/bridge.rs:172-276 | A stream that ends well emits the deltas of its chunks, reasoning before text, and then one completion with all text deltas together and all pieces of calls merged |
| `ModelStream.CompletionIs` | crates/ai_chat_view/src/bridge.rs:262-266 | The completion carries the contents of all chunks together, or no text if that is empty, and all the pieces of calls merged |
| `ModelStream.DeltasOfChunk` | crates/ai_chat_view/src/bridge.rs:220-231 | Each chunk gives its reasoning, then its content, as far as it has them, and nothing else |
| `ModelStream.FailingStream` | crates/ai_chat_view/src/bridge.rs:247-250 | At an error the stream ends with it after the deltas so far; nothing more is read and there is no completion |
| `ModelStream.Machine.Poll` | crates/ai_chat_view/src/bridge.rs:182-276 | Each poll yields the next of what remains, so any number of polls yields a prefix of it |
| `ModelStream.Collect` | crates/ai_chat_view/src/bridge.rs:172-276 | Polling to the end ends and collects everything in order |
| `ModelStream.MergeStreamToolCalls` | crates/ai_chat_view/src/bridge/stream_tools.rs:9-26 | The loops over pieces and accumulated calls compute the merge |
| `ModelStream.MergeCallAt` | crates/ai_chat_view/src/bridge/stream_tools.rs:17-25 | A piece changes only the first call that it belongs to, or is appended when there is none |
| `ModelStream.AppendedIff` | crates/ai_chat_view/src/bridge/stream_tools.rs:17-49 | A piece becomes a new call exactly when no call has its index, where both have one, or else its id |
| `ModelStream.ReplacedOrJoined` | crates/ai_chat_view/src/bridge/stream_tools.rs:17-49 | A piece with an id, a type or a name replaces its call; one with arguments only is joined to it |
| `ModelStream.MergedCallByCall` | crates/ai_chat_view/src/bridge/stream_tools.rs:9-49 | Pieces of several calls may arrive interleaved: each call with an index is merged with exactly the pieces that have its index |
| `ModelStream.CallsOfStream` | crates/ai_chat_view/src/bridge/stream_tools.rs:9-49 | From the first piece of a stream: one call for each index in order of first appearance, each its first piece merged with the later pieces of that index |
| `ModelStream.StreamAssemblesIff` | crates/ai_chat_view/src/bridge/stream_tools.rs:28-41 | So a call of a stream ends with all its fragments put together exactly when none of them follows on what spells an empty object |
| `ModelStream.AnonymousStaysAlone` | crates/ai_chat_view/src/bridge/stream_tools.rs:17-49 | A piece with neither index nor id becomes a call of its own, which no later piece joins |
| `ModelStream.FragmentsAssembleIff` | crates/ai_chat_view/src/bridge/stream_tools.rs:28-41 | A call whose arguments arrive in fragments, between pieces of other calls, ends with all of them put together exactly when no fragment of it follows on what spells an empty object |
| `ModelStream.ChunksDoNotMatter` | crates/ai_chat_view/src/bridge.rs:206-220 | How the pieces are spread over chunks makes no difference to the merged calls |
| `ModelStream.SnapshotAgainIff` | crates/ai_chat_view/src/bridge/stream_tools.rs:28-49 | Sending a whole call again changes nothing exactly when it has an index or an id |
| `AgentIds.NormalizeEntryIds` | main/src/ai_chat_acp.rs:182-192 | The loop over the entries in place, with its growing set, leaves the normalised entries |
| `AgentIds.IdsAreDistinct` | main/src/ai_chat_acp.rs:182-192 | Afterwards ids are pairwise distinct and non-empty, a config has the id of its entry and nothing else has changed |
| `AgentIds.OnlyIdsChange` | main/src/ai_chat_acp.rs:182-192 | Nothing but the ids of an entry and of its config is touched |
| `AgentIds.BaseIs` | main/src/ai_chat_acp.rs:182-186 | An id is made of the trimmed one, or of the place in the list counted from one |
| `AgentIds.SecondOfABase` | main/src/ai_chat_acp.rs:194-206 | In plain characters: the second entry of a base gets `-2` behind it |
| `AgentIds.KeepsBaseIff` | main/src/ai_chat_acp.rs:182-192 | An entry keeps its own id exactly when no entry before it ends up with it |
| `AgentIds.CollisionTakesLeastSuffix` | main/src/ai_chat_acp.rs:194-206 | A colliding id gets the least free suffix from 2 on, at most one more than the entries before it |
| `AgentIds.NormalizedIsIdempotent` | main/src/ai_chat_acp.rs:182-192 | Normalising twice is normalising once |
| `AgentIds.MakeUnique` | main/src/ai_chat_acp.rs:194-206 | The loop ends after at most as many tries as there are used ids, with the first free candidate |
| `AgentIds.FirstFree` | main/src/ai_chat_acp.rs:198-205 | The least suffix whose candidate is free, and a bound on it |
| `AgentIds.UniqueId` | main/src/ai_chat_acp.rs:194-206 | The id is not in use, and it is the base exactly when the base is not |
| `AgentIds.CoreOf` | main/src/ai_chat_acp.rs:162-171 | Every value is white space around a core that is empty or tidy, so the next row speaks of every value |
| `AgentIds.PaddedOrBlank` | main/src/ai_chat_acp.rs:162-171 | White space around a value is cut off, and a value of white space alone is replaced |
| `AgentIds.MergeEnv` | main/src/ai_chat_acp.rs:143-154 | The loops over additions and variables compute the merge |
| `AgentIds.MergedLookup` | main/src/ai_chat_acp.rs:143-154 | Every variable that the user gives has the value given, every other its own |
| `AgentIds.MergedNames` | main/src/ai_chat_acp.rs:143-154 | The variables that there were keep their order, and the new ones follow in theirs |
| `AgentIds.MergedKeepsOrder` | main/src/ai_chat_acp.rs:143-154 | Variables keep their places, new ones follow, and no name comes to occur twice |

## Left out

- ChangelogOthers.OthersUnchanged: assumes closed fences or nothing behind the entry; `ChangelogFenced.OpenFenceHides` covers a fence left open over text without fence lines. Where such text has fence lines of its own, they hide and reveal headings in alternation, and nothing is stated.
- ChangelogOthers.OtherUnchangedIff: makes the same assumption about fences.
- ChangelogFenced.OpenFenceHides: assumes that the text behind has no fence lines, for the reason above.
- ChangelogRoundTrip.RoundTrip: assumes that no fence is open at the marker; otherwise `ChangelogFenced.WrittenHeadingIsFoundIff` says that the written heading is not found, and `ChangelogFenced.FencedMarkerHides` that extraction fails if the notes have no fence lines. Notes with fence lines can turn what is hidden behind the marker inside out, and of the entries found there nothing is stated.
- ChangelogTwice.UpsertTwice: assumes that no fence is open at the marker, as the round trip does.
- Lines end at newlines only: carriage returns inside a file and the rarer separators of `str.splitlines` are not lines of their own.
- The regular expressions of the changelog are written out as the automata and predicates they amount to; there is no model of regular expressions in general.
- Messages of errors: an error is told apart by its kind, and for the packager by the names it mentions.
- Reading and writing of the changelog file, its command line, and the release workflow around it.
- What a sync worker does in a pass, its store and its conflict storage: a pass ends, whether it then succeeds or fails, and a panic inside one, which would leave it going on for ever, is left out. Events that are taken by a pass that fails count as taken.
- SyncDrains.NoLostWakeUp: runs without events of the watcher, with which it is false (`SyncDrains.LostBehindWatcher`); `SyncDrains.AutoSyncIsDrained` gives the condition for each event.
- The debounce of the watcher's file events, and its enqueuing and spawning as two steps.
- How settings, session and environment make up the configuration of the MCP runtime, and its server; `u64` generations do not wrap.
- Reading of ELF headers, hashing, the loader cache as text, the host driver patterns and the expansion of search paths: functions of the `World`.
- Copying of the bundle, character conversion modules, licences, launcher and manifest of the package.
- Ordering by last use and the sorting itself, which is the standard library's: easy members.
- History entries carry a text, an id or a name in place of their payloads; `last_observation` and `last_user_message` are searches without more to say.
- Positions of code blocks count characters, where the source counts bytes of UTF-8.
- Startup paths on systems other than Windows, `PathBuf` as more than its 16-bit units, and the socket, its retries and timeouts.
- How a provider's chunks give their text and reasoning, and how its library joins fragments of arguments (`MergeDelta`, any function; `Appends` where a lemma needs more), which are not part of this model; a stream that never ends is covered by its prefixes.
- Agents' transports, authentication, arguments and timeouts; the suffix of an id does not overflow.
- Everything that draws, stores or talks to a network.
