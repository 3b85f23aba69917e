# DwarfAI-Miners: a verified model of the replay, the hook installer and the harness machines

This Dafny project models the self-contained logic of DwarfAI-Miners that has to hold for every input or every run, and
proves what that logic promises. `dafny verify dfyconfig.toml` checks the whole of it.

- **JSON as JavaScript holds it** (`JsObject`, `Json`, `JsonText`, `JsonRoundTrip`, `JsonReference`, `Canonical`,
  `CanonicalOrder`): objects are ordered property lists (array-index keys first, in ascending order), `JSON.stringify` with
  its indent capped at ten characters and `JSON.parse` are written out, and printing and reading are proved to be inverse;
  `JsonReference` is the text as its standard defines it, `CanonicalOrder` the order of the keys.
- **The replay of a recorded run** (`Replay`, `ReplayLaws`, `ReplayVerdict`, `ReplayRecorder`, `ReplayProjection`):
  wall-clock masking, dropping repeated pushes (once while recording, once when comparing), the canonical bytes compared,
  and the part of a recording a later release still serves.
- **The installer of the old app's Claude hooks** (`OldAppHooks`, `OldAppHooksText`, `OldAppHooksMerge`,
  `OldAppHooksLaws`, `OldAppHooksPerson`, `OldAppHooksRuns`): settings text to settings text, with the layout found again
  and a backup taken once, over whole runs of installs, saves and removals.
- **Smaller machines**: the Host's boot over late-bound parts (`HostBoot`, `HostBootLaws`), the data directory rule over
  Node's path resolution (`Paths`, `DataDirectory`), a chunked line splitter and tail (`ElectronProcess`), a first-in
  first-out matcher of answers and calls (`FrameMatcher`), a bouncing sweep and its frame loop (`Sweep`), the walk of a
  focus ring (`FocusWalk`), the launched app's environment (`LaunchEnv`, `LaunchEnvLaws`) and its teardown (`Teardown`),
  and the two builders of version 7 UUIDs (`Uuid`, `UuidLaws`).
- `Seqs`, `Options`, `Platforms` and `JsText` hold what these share.

Code that updates its state step by step is modelled by classes and loops, each proved against a function of its inputs;
the laws are then lemmas about that function, and what it computes is told once more in the source's own names and texts.
`canon` stands for how JavaScript reads a numeral and prints the number back, `fold` for lower-casing one character, `upper`
for upper-casing a variable's name.

## What does not hold

Three promises of the source's comments fail for some inputs. The model keeps the code's behaviour, shows an input for
each, and proves when the promise does hold.

- *The bytes compared depend on the values only.* Repeated pushes are told by their masked text, before keys are sorted, so
  one payload pushed in two key orders counts twice (`ReplayLaws.KeyOrderShows`). Of two runs that agree up to key order,
  one of which keeps one key order per row under the mask (no two of a row's masked payloads differ in key order alone),
  the bytes are equal exactly when the other does too (`ReplayLaws.BytesAgreeExactlyInOneOrder`).
- *No other spelling of a folder variable is left beside the harness's.* The data root and the provider homes are set by
  plain assignment, so a runner's `LocalAppData` stays beside `LOCALAPPDATA` (`LaunchEnvLaws.MixedCaseDataRootStays`). Such
  a variable is spelled once exactly when the runner spelled it no other way
  (`LaunchEnvLaws.AssignedIsSpelledOnceExactly`).
- *A quit that never finishes is reported.* When closing Playwright's side throws after the kill, its error is all the
  teardown throws: neither the stuck quit nor the error of the quit call is told of (`Teardown.CloseErrorHides`). The stuck
  quit is told of exactly when the app outlived its kill or closing did not throw (`Teardown.StuckQuitReportedExactly`),
  and an error of the quit call exactly as `Teardown.QuitErrorReportedExactly` says.

## Model

| member | source | states |
|---|---|---|
| JsObject.PutEntries | e2e/_harness/oldAppClaudeHooks.ts:106-109 | assigning a property leaves the new property and every other one held before, and no more |
| JsObject.FromEntriesOfObject | scripts/strangler/seamAReplay.ts:175-182 | building an object from the entries of one, in its own order, gives the same object, index keys first |
| CanonicalOrder.IndexKeysFirst | scripts/strangler/seamAReplay.ts:283-292 | in every object a short decimal key comes before every key that is no number and before every such key that is a greater number |
| JsonRoundTrip.ParseStringify | e2e/_harness/oldAppClaudeHooks.ts:96-114 | for every value, indent of white space and trailing white space, the printed text is read back as the value |
| JsonRoundTrip.StringifyIsInjective | scripts/strangler/seamAReplay.ts:194-195 | two values printed alike are the same value, so text tells payloads apart |
| JsonRoundTrip.ParseIsSound | e2e/_harness/oldAppClaudeHooks.ts:96 | whatever is read holds only objects with distinct keys in property order and numbers as JavaScript prints them |
| JsonRoundTrip.PrintHasNoReturn | e2e/_harness/oldAppClaudeHooks.ts:91-95 | no printed text holds a carriage return, so the installer never refuses its own output |
| JsonReference.StringifyIsSerialized | scripts/strangler/seamAReplay.ts:279-281 | the text printed is the one section 25.5.2 of ECMA-262 defines: quoting, separators, indentation, the gap at most ten characters |
| Canonical.CanonicalTextDecides | scripts/strangler/seamAReplay.ts:279-292 | two values have the same canonical text exactly when they are equal up to the order of object keys at every depth |
| Canonical.CanonicalTextParses | scripts/strangler/seamAReplay.ts:279-292 | the canonical text reads back as the value with sorted keys, is equal to it up to key order, and is a fixed point |
| CanonicalOrder.KeysInCharOrder | scripts/strangler/seamAReplay.ts:286-292 | in the object printed a key comes before those that go on from it or have a greater character where they first differ, by UTF-16 units |
| Replay.ComparableRunInLoops | scripts/strangler/seamAReplay.ts:189-203 | the two nested loops compute the specification of the comparable part |
| ReplayVerdict.MaskReplacesUpdatedAt | scripts/strangler/seamAReplay.ts:170-183 | masking replaces numbers under "updatedAt" by "<wall-clock>" and nothing else, at every depth, each key in its place |
| ReplayVerdict.ComparedCalls | scripts/strangler/seamAReplay.ts:200 | every call is compared, with its row, channel, member and masked answer |
| ReplayVerdict.BytesAre | scripts/strangler/seamAReplay.ts:189-208 | the bytes are the canonical text of the calls with their masked answers and of each channel's masked payloads first seen |
| ReplayLaws.MaskIsIdempotent | scripts/strangler/seamAReplay.ts:172-183 | masking a masked value changes nothing |
| ReplayLaws.MaskMeetsExactlyTwins | scripts/strangler/seamAReplay.ts:165-183 | two values mask alike exactly when they differ only in wall-clock fields holding a number or the marker on both sides |
| ReplayLaws.MaskCommutesWithSort | scripts/strangler/seamAReplay.ts:172-183 | masking and sorting keys commute at every depth |
| ReplayLaws.ComparedPayloads | scripts/strangler/seamAReplay.ts:185-198 | per push row of the comparable part: pairwise distinct, exactly the masked payloads sent, in the order first seen |
| ReplayLaws.ComparableRunIsIdempotent | scripts/strangler/seamAReplay.ts:189-203 | the comparable part of a comparable part is itself |
| ReplayLaws.RepeatWithNewerTime | scripts/strangler/seamAReplay.ts:185-208 | a push repeated with only a newer time changes neither the comparable part nor the bytes |
| ReplayVerdict.EqualBytesExactlyWhenAlike | scripts/strangler/seamAReplay.ts:189-208 | two runs have equal bytes exactly when they have the same calls with answers equal under the mask up to key order, and on the same channels the masked payloads, each where first seen, equal up to key order |
| ReplayLaws.BytesAgreeExactlyInOneOrder | scripts/strangler/seamAReplay.ts:189-208 | against a run whose rows each keep one key order under the mask, a run agreeing with it up to key order has equal bytes exactly when its rows keep one key order under the mask too |
| ReplayLaws.KeyOrderShows | scripts/strangler/seamAReplay.ts:193-196 | two lists of pushes equal up to key order whose runs have other bytes |
| ReplayRecorder.PushRecorder.OnPush | scripts/strangler/seamAReplay.ts:238-245 | whatever is sent, a row holds the distinct texts of all its payloads in the order first seen; other rows are untouched |
| ReplayRecorder.PushRecorder.Pushes | scripts/strangler/seamAReplay.ts:268-275 | the run answers exactly the channels the rows name, each with the distinct payloads sent to the last row that names it, parsed back |
| ReplayRecorder.ChannelsAnswered | scripts/strangler/seamAReplay.ts:271-274 | a channel is answered exactly when some row names it, with what the last such row holds |
| ReplayRecorder.KeptTextsParse | scripts/strangler/seamAReplay.ts:273 | parsed back, the distinct texts are the distinct payloads in the same order |
| ReplayRecorder.EarlyDropIsInvisible | scripts/strangler/seamAReplay.ts:234-276 | for every push history, dropping repeats while recording changes neither the comparable part nor the bytes |
| ReplayProjection.KeptAtIsExact | scripts/strangler/seamAReplay.ts:129 | the kept positions are exactly those of calls on kept channels, each once, ascending |
| ReplayProjection.PartStaysInStep | scripts/strangler/seamAReplay.ts:112-149 | a projection is in step again, and each kept call carries its own recorded answer, row and channel, despite the renaming |
| ReplayProjection.RefusedExactlyOutOfStep | scripts/strangler/seamAReplay.ts:122-128 | a recording is refused exactly when it has another number of calls or some call of another channel or member |
| ReplayProjection.CallsKeptExactly | scripts/strangler/seamAReplay.ts:117-149 | exactly the calls some route serves `legacy` in today's shape stay, at the same positions of scenario and recording, in order, each under the member spoken today |
| ReplayProjection.PushesKeptExactly | scripts/strangler/seamAReplay.ts:134-140 | exactly the push rows and recorded pushes of such channels stay, each as it was, in order |
| ReplayProjection.ProjectionsCompose | scripts/strangler/seamAReplay.ts:112-149 | projecting by two releases' routes one after the other is projecting once by the channels both keep, refusals included |
| ReplayProjection.ComparingCommutesWithProjecting | scripts/strangler/seamAReplay.ts:112-203 | masking and dropping repeats, then projecting, is projecting, then masking and dropping repeats |
| OldAppHooks.InstallEventsInLoop | e2e/_harness/oldAppClaudeHooks.ts:102-110 | the loop over the events computes the specification, and stops at the first event that holds no array |
| OldAppHooks.ClaudeConfigDir.Install | e2e/_harness/oldAppClaudeHooks.ts:84-121 | both files after an install, whether the settings were rewritten, and each refusal, which changes nothing |
| OldAppHooksText.LayoutIsStable | e2e/_harness/oldAppClaudeHooks.ts:112-115 | the layout found in a written text is the layout it was written in, its indent cut to ten characters |
| OldAppHooksText.WrittenIsRead | e2e/_harness/oldAppClaudeHooks.ts:91-115 | a written text is accepted and read back as the settings written |
| OldAppHooksText.FirstIndentIsFirst | e2e/_harness/oldAppClaudeHooks.ts:112 | the indent found is that of the first line with blanks before something that is no white space, and none exactly when there is no such line |
| OldAppHooksPerson.InstalledLayout | e2e/_harness/oldAppClaudeHooks.ts:112-115 | the bytes written are the settings they hold, printed with the indent and the final line feed of the text found |
| OldAppHooksMerge.CommandIncludesMarker | e2e/_harness/oldAppClaudeHooks.ts:41-60 | every command built is one the installer recognises as its own |
| OldAppHooksPerson.CommandSpelledOut | e2e/_harness/oldAppClaudeHooks.ts:41-60 | which options make a command, and the command, its port in decimal |
| OldAppHooksMerge.Strip | e2e/_harness/oldAppClaudeHooks.ts:62-78 | stripping keeps every foreign handler and malformed group in order, leaves no own entry, and strips nothing the second time |
| OldAppHooksPerson.GroupStripped | e2e/_harness/oldAppClaudeHooks.ts:70-78 | a group stays as it is, goes, or keeps its other handlers and all beside them, by whether none, all or some of its handlers' commands say "dwarfai-miners-hook" |
| OldAppHooksMerge.NewGroupsLaws | e2e/_harness/oldAppClaudeHooks.ts:104-109 | per event: foreign content conserved, exactly one own entry, in the last group; stripping the result is stripping the input |
| OldAppHooksPerson.NewGroupsKeepTheirs | e2e/_harness/oldAppClaudeHooks.ts:104-109 | per event, told of the JSON values: the handlers whose command does not say "dwarfai-miners-hook" and the groups that are none stay in order, and exactly one that says it is there, the new one, in the last group |
| OldAppHooksMerge.InstallIsOneOverlay | e2e/_harness/oldAppClaudeHooks.ts:103-110 | the loop succeeds exactly when every event holds an array, and is then one assignment of all events at once |
| OldAppHooksLaws.MergeIs | e2e/_harness/oldAppClaudeHooks.ts:98-114 | a merge succeeds exactly when hooks is an object, the options make a command and every event holds an array |
| OldAppHooksLaws.MergeAbsorbs | e2e/_harness/oldAppClaudeHooks.ts:98-114 | merging over a merge is merging over what was there before it, refusals included |
| OldAppHooksLaws.InstallAbsorbs | e2e/_harness/oldAppClaudeHooks.ts:84-121 | installing with one set of options and then another gives the bytes, or the refusal, the second alone gives |
| OldAppHooksLaws.BlankTextInstalls | e2e/_harness/oldAppClaudeHooks.ts:90-110 | a missing, empty or blank file takes every install whose options make a command |
| OldAppHooksLaws.InstallIsIdempotent | e2e/_harness/oldAppClaudeHooks.ts:116 | a second install with the same options finds nothing to write |
| OldAppHooksLaws.InstallConserves | e2e/_harness/oldAppClaudeHooks.ts:96-114 | text to text: unrelated settings and hook keys keep value and order, every event keeps its foreign content, and holds one own entry in its last group |
| OldAppHooksPerson.InstallKeepsTheirs | e2e/_harness/oldAppClaudeHooks.ts:96-114 | the same of the text written against the text found, for the five events by name; every other hook key and setting is as it was |
| OldAppHooksPerson.InstalledExactly | e2e/_harness/oldAppClaudeHooks.ts:91-105 | a text is installed into exactly when it has no CR LF and no byte order mark, is blank or holds an object, its hooks and their five events are of the right shape, and the options make a command |
| OldAppHooksRuns.BackupNeverChanges | e2e/_harness/oldAppClaudeHooks.ts:117-118 | over every run of installs, saves and removals a backup once there never changes |
| OldAppHooksRuns.BackupHoldsTheFirstText | e2e/_harness/oldAppClaudeHooks.ts:116-119 | the backup is missing until an install first changes an existing file, and from then on holds the text that install found |
| OldAppHooksRuns.OnlyTheLastInstallShows | e2e/_harness/oldAppClaudeHooks.ts:84-121 | after any number of installs, refused ones among them, the file is what the last one the first text takes would have made of it, or that text |
| OldAppHooksRuns.InstallsBackUpTheFirstText | e2e/_harness/oldAppClaudeHooks.ts:116-119 | after any number of installs a new backup is the first text, and without one the file still is |
| Paths.ResolveText | src/ui-main/dataDirectory.ts:46 | the text of a resolved path is absolute and resolves to the same device and segments |
| Paths.ResolveJoin | src/ui-main/dataDirectory.ts:36-38 | joining a name is going exactly one segment down, on every OS |
| Paths.DetoursLeadBack | src/ui-main/dataDirectory.ts:42-50 | a trailing separator, and a detour into a folder and back, lead to the same folder |
| Paths.ResolveBelow | src/ui-main/dataDirectory.ts:46 | what "", ".", ".." and any other name after either separator of the OS do to a resolved path |
| Paths.RootsAreEmpty | src/ui-main/dataDirectory.ts:46 | the roots those paths start from: "/", a drive, a share |
| DataDirectory.SamePathComparesSegments | src/ui-main/dataDirectory.ts:43-50 | two paths compare the same exactly when their devices and segments do one by one, case folded on Windows and macOS |
| DataDirectory.RuleSpelledOut | src/ui-main/dataDirectory.ts:33-40 | told of resolved paths: an unpackaged build in "DwarfAI-Miners" moves to "DwarfAI-dev" beside it, every other stays, and so no unpackaged build is in the former |
| DataDirectory.NeverTheReleaseFolder | src/ui-main/dataDirectory.ts:33-40 | an unpackaged build never uses the release folder, as its OS compares paths |
| DataDirectory.MovesExactlyFromRelease | src/ui-main/dataDirectory.ts:33-40 | a build leaves its own folder exactly when it is unpackaged and that folder is the release folder |
| DataDirectory.RuleIsStable | src/ui-main/dataDirectory.ts:33-40 | applied to the folder it chose, the rule chooses it again |
| ElectronProcess.ElectronProcess.OnStdout | scripts/os-lane/electronProcess.ts:29-34 | after every chunk the lines are those of the whole stream printed so far, and the buffer its unfinished part |
| ElectronProcess.ElectronProcess.OnStderr | scripts/os-lane/electronProcess.ts:36-38 | after every chunk the tail is the last 4000 characters of the whole stream |
| ElectronProcess.SplitGivesLines | scripts/os-lane/electronProcess.ts:31-33 | splitting at LF or CR LF, trimming and dropping empty lines gives the trimmed non-empty LF-terminated lines |
| ElectronProcess.LinesOneByOne | scripts/os-lane/electronProcess.ts:31-33 | a line feed ends a line, which counts trimmed unless it is blank, and the lines of the rest follow; what no line feed ends stays in the buffer |
| ElectronProcess.SplitAppend | scripts/os-lane/electronProcess.ts:30-33 | only the last part changes when more is printed, even when a chunk ends between CR and LF |
| FrameMatcher.AnswersMatchCalls | e2e/cut-0/host-endpoint.e2e.ts:100-119 | after every interleaving the k-th call is resolved with the k-th non-event frame, nothing is lost or doubled, and frames and calls never both wait |
| FrameMatcher.UiConnection.OnDecoded | e2e/cut-0/host-endpoint.e2e.ts:105-112 | one decoded message moves the connection by one step of that machine, and hello.ok is noted |
| FrameMatcher.UiConnection.Next | e2e/cut-0/host-endpoint.e2e.ts:116-119 | one call moves the connection by one step of that machine |
| Sweep.SweepIsTriangleWave | perf/fixtures/controlRoom/probe.ts:149-161 | from the left edge, after k steps the scroll is the triangle wave of period 2 ceil(max/px), clamped at both edges |
| Sweep.WaveIsPeriodic | perf/fixtures/controlRoom/probe.ts:149-161 | that wave has that period and is at the far edge half way through it |
| Sweep.StepsStayInRange | perf/fixtures/controlRoom/probe.ts:153-160 | from anywhere in range the scroll stays in range and moves at most px a step |
| Sweep.DeltasTelescope | perf/fixtures/controlRoom/probe.ts:77-81 | the times between frames add up to the last frame's time less the first's |
| Sweep.SweepLoop.Frame | perf/fixtures/controlRoom/probe.ts:72-91 | the loop settles at the first frame ms past the first, with as many steps as deltas; the counter counts every frame |
| FocusWalk.PartsWalked | e2e/panel/shell.e2e.ts:76-92 | the loop reports the run-collapsed parts of the stops up to the first repeat, the document, or the cap |
| FocusWalk.CollapseHolds | e2e/panel/shell.e2e.ts:88 | a part is reported exactly when a stop is in it |
| FocusWalk.CollapseHasNoRuns | e2e/panel/shell.e2e.ts:88 | no two neighbours reported are equal |
| FocusWalk.CollapseReports | e2e/panel/shell.e2e.ts:88 | the parts reported are those of some stops, in order, and every stop in a part is in that of the last of these before it |
| FocusWalk.WalkVisitsTheRing | e2e/panel/shell.e2e.ts:80-87 | on every ring of distinct stops the walk visits each stop once, or the first 400 |
| FocusWalk.WalkBackReverses | e2e/panel/shell.e2e.ts:76-92 | on every ring of at most 400 stops Shift+Tab reports the reverse of what Tab reports, the whole ring |
| Uuid.FromBytes | e2e/cut-2/claude-hooks-toggle.e2e.ts:42-49 | the buffer after the builder: time, version and variant over the random bytes; a time beyond 48 bits is refused untouched |
| UuidLaws.BuildersAgree | e2e/cut-2/claude-hooks-toggle.e2e.ts:42-49 | over the same time and random bits both builders print the same identifier |
| UuidLaws.FollowsVersion7 | e2e/cut-0/host-endpoint.e2e.ts:239-245 | 36 characters in groups of 8-4-4-4-12 digits, version 7, variant 10, led by the time (section 5.7 of RFC 9562) |
| UuidLaws.SortsByTime | e2e/cut-0/host-endpoint.e2e.ts:239-245 | identifiers sort by their times whenever those differ, whatever the random digits |
| HostBoot.BootHost.Open | src/host/main.ts:684-758 | the two parts bound before any step: the database, then the clean exit, or as far as the opening got |
| HostBoot.BootHost.Attempt | src/host/main.ts:769-1543 | an attempt at a step, broken off anywhere, binds what its assignments reach and stops at a failing guard |
| HostBootLaws.StepSpelledOut | src/host/main.ts:769-1543 | for each step, over any set of bound parts: the parts it asks for and those it binds |
| HostBoot.BootHost.CloseCleanly | src/host/main.ts:737-756 | refused before the lifecycle is composed; then, of the maintenance tick, both rechecks, asking, launching, and of hook ingress and delegation, exactly the bound ones are stopped and closed |
| HostBootLaws.BoundIsAlwaysAPrefix | src/host/main.ts:519-575 | after every history of attempts and answers, in any order and broken off anywhere, what is bound of the boot order is a prefix of it |
| HostBootLaws.RefusedExactlyWhenEarly | src/host/main.ts:894-911 | an attempt is refused exactly when something it needs is not bound yet, and then has bound nothing; stop-all exactly before launching's is bound |
| HostBootLaws.WholeStepPasses | src/host/main.ts:896-911 | in a run of whole steps a step passes exactly when the resume, and for steps 5, 6 and 8 the construction after it, ran before |
| HostBootLaws.BootInOrderPasses | src/host/main.ts:769-1543 | a boot in its numbered order meets no invariant error and binds every part from step 4 on |
| HostBootLaws.OpeningIsRefused | src/host/main.ts:510-612 | from the Host's start on, the reset epoch is refused exactly until the database is open, a clean exit exactly until it is composed, and a stop-all while it opens |
| HostBoot.BootHost.Finish | src/host/main.ts:1563-1575 | the maintenance tick starts exactly after a ready answer over an open database |
| HostBootLaws.MaintenanceRuns | src/host/main.ts:1563-1575 | over every history the maintenance tick runs exactly once the boot answered ready |
| HostBootLaws.CleanExitStopsWhatIsBound | src/host/main.ts:737-756 | a clean exit at any point of any history is taken, and stops and closes exactly the parts that history has reached, the maintenance tick exactly after a ready answer |
| LaunchEnv.Environment.SetVariable | e2e/_harness/launchApp.ts:233-238 | every other spelling is deleted in place, every other variable kept in order, and the variable set |
| LaunchEnv.Environment.Fill | e2e/_harness/launchApp.ts:204-217 | the record after the runner's variables were copied and the stubs put first on PATH |
| LaunchEnvLaws.HomeIsSpelledOnce | e2e/_harness/launchApp.ts:218-224 | before the overlay each home variable is there under one case-insensitive spelling, with the harness's value |
| LaunchEnvLaws.HomeVariables | e2e/_harness/launchApp.ts:218-224 | the five home variables and their values, each under one spelling |
| LaunchEnvLaws.AssignedVariables | e2e/_harness/launchApp.ts:219-224 | the plainly assigned variables and their values, the data root's by the OS |
| LaunchEnvLaws.PathSpelledOut | e2e/_harness/launchApp.ts:209-217 | with stubs PATH is there under one spelling, the runner's first, with the stubs and behind them the first value of the runner that is not empty, or alone |
| LaunchEnvLaws.UnrelatedIsKept | e2e/_harness/launchApp.ts:204-224 | every variable under no name this launch sets is there exactly when the runner has it and it is no dropped switch |
| LaunchEnvLaws.AssignedIsSpelledOnceExactly | e2e/_harness/launchApp.ts:219-224 | a plainly assigned variable is spelled once exactly when the runner spelled it no other way |
| LaunchEnvLaws.MixedCaseDataRootStays | e2e/_harness/launchApp.ts:221 | a runner's LocalAppData stays beside LOCALAPPDATA |
| LaunchEnvLaws.OverlayWins | e2e/_harness/launchApp.ts:225-226 | the case's own variables win, key by key, and everything else is as before |
| Teardown.LaunchedApp.StopTracing | e2e/_harness/launchApp.ts:549-553 | the trace is stopped once; a later call does nothing |
| Teardown.LaunchedApp.Teardown | e2e/_harness/launchApp.ts:557-676 | what either way of tearing down throws for every combination of failures; a second call does nothing |
| Teardown.QuitReportsEverything | e2e/_harness/launchApp.ts:582-625 | a plain teardown throws exactly when exit, main process or removal failed, and each that did is in the message or cause chain |
| Teardown.StopReportsEverything | e2e/_harness/launchApp.ts:635-676 | the same for Stop everything and quit |
| Teardown.QuitTellsTheLast | e2e/_harness/launchApp.ts:582-606 | which failure of a plain quit is carried by what is thrown, with its message |
| Teardown.StopTellsTheFirst | e2e/_harness/launchApp.ts:635-662 | which failure of Stop everything and quit is carried by what is thrown, with its message |
| Teardown.ThrowsNothingExactly | e2e/_harness/launchApp.ts:557-676 | for each way of tearing down, what must go right, apart from a quit call whose error does not count, for nothing to be thrown |
| Teardown.QuitErrorReportedExactly | e2e/_harness/launchApp.ts:571-624 | the error of the trace or the quit call is carried by what the teardown throws exactly when it counts, the app is gone and closing did not throw, or when the error thrown in its place carries it |
| Teardown.StuckQuitReportedExactly | e2e/_harness/launchApp.ts:584-624 | for an app that did not exit in time, what the teardown throws tells of it exactly when the app outlived its kill or closing did not throw |
| Teardown.NoStuckQuitMadeUp | e2e/_harness/launchApp.ts:584-624 | a teardown whose app exited in time never tells of a stuck quit |
| Teardown.CloseErrorHides | e2e/_harness/launchApp.ts:584-606 | a world in which the app was killed, closing threw, and the thrown error tells of neither the stuck quit nor the quit call's error |

## Left out

- Lone surrogates: a character here is a Unicode scalar value, so a surrogate pair is one character, an escape of a lone
  surrogate is refused by the reader, and keys sort by the UTF-16 units their characters are written with.
- JavaScript's numbers: a number is the text it prints as, and reading a numeral is a parameter; overflow to infinity, NaN
  and negative zero are not modelled, and a port is an integer.
- The key `__proto__`, and channels named like members of `Object.prototype` (which the lookup of renamed members finds).
- `undefined` inside a value, `toJSON` and other values JSON cannot carry; only a push payload may be `undefined`.
- Running a scenario against an app (calls, settling, recording files, the replay's environment): only its push listeners
  and the answer built from them are modelled.
- A call's arguments and its answer are one field, `carried`, of a generic call.
- Reading and writing files: the installer's folder holds two texts, and no read or write of them fails.
- Paths that are not absolute; on Windows also rooted paths without a drive, drive-relative paths and the `\\.\` and `\\?\`
  device paths.
- Lower-casing that changes a text's length or depends on its neighbours; upper-casing and path joining in the app's
  environment are parameters, and the folder `homeIn` makes is not modelled.
- ElectronProcess.ElectronProcess.OnStderr: a character counts as one code unit, and decoding the chunks is left out.
- Waiting for a line, counting lines, describing, starting and stopping a process (`electronProcess.ts`).
- The socket, the frame decoder and the requests a client sends: decoded messages are an arbitrary sequence.
- Sweep.SweepIsTriangleWave: the width of the mosaic stays the same during a sweep, and the scroll is exact.
- The probe's columns and reveals; frame times are exact reals.
- UuidLaws.FollowsVersion7: times of more than 48 bits, whose digits no longer fit the form.
- What the Host's imported modules do: only the guards, assignments and calls of `main.ts` itself. Every variable and every
  entry of its `modules` record is one element of a set of bound parts; a step's waits are points where it may break off.
- The observation backfill of step 7, the boot runner's own stages and refusals, and the handlers of a failed boot.
- Starting an app before its first window, ending the Host after a teardown, keeping diagnostics and reading the record of
  main-process errors; exits, kills and what throws are inputs of the teardown, and `undefined` is never thrown. An Error
  object is told from another by where it was made, its message and its cause.
- Page scripts, locators, fixtures, configuration and the remaining helpers: nothing there holds over unbounded inputs.
