# bud build engine — a Dafny model

This project models the core of `bud`, a Go build tool driven by task
scripts:

- **The task engine** (`context/task.go`, `context/executor.go`, `context/plugin.go`).
  - `Task` parses its variadic arguments into a task and registers it under `group.name`.
  - `setTaskToDefault` and `UseTasks` add short-name aliases for a group.
  - `RunTask` walks a task's dependencies depth first, left to right, and fails fast.
  - A call stack detects recursion.
  - Each task is configured from four ordered layers, then validated, then executed.
- **The older plugin engine** (`plugins/task.go`): the same design over package globals.
- **File watches** (`context/watch.go`, `context/event.go`):
  - argument parsing and defaults;
  - the skip mask;
  - the filtering of one event;
  - the merge-or-append debounce buffer and its flush;
  - the ordered dispatch to tasks and a callback.
- **The build-script scanner** (`script/scanner.go`).
  - A byte-at-a-time state machine sorts top-level statements into imports, funcs, types, consts, vars and lines.
  - It tracks quotes and bracket depth.
  - It checks string escapes as section 7 of RFC 8259 defines them.
- **Small pieces**:
  - the `\xHH` hex writer;
  - the license-head prepender;
  - the dist task's validation and build loop;
  - the two asset registries;
  - the seed registry;
  - `Paths.Each`;
  - the monotone exit status;
  - `stringList`.

The model follows the form of each source file:

- **Pure code** becomes datatypes, functions and lemmas: the executors, the event predicates, the walker and the scanner's transition functions.
- **Code that updates state** becomes classes whose methods update fields under `modifies` clauses. Examples: the registries, the watch, the task stack, `scriptScanner`, `keywordScanner`, `HexWriter`, `LicenseTask` and the exit bookkeeping.
- **Source loops** become `while` loops with invariants. Each method is proved against a specification function, and the source's promises are proved about that function as lemmas.

Panics are returned as `Completion` or `Outcome` values. A Go `error` is a `Status`, which is `Nil` or `Error(msg)`.

Everything the core calls but does not define is a parameter: user runners, the configuration binder, `os.Stat`, the path selector, gzip, the file system, the working directory, the script generator and `go build`.

Where a layered package uses the same logic twice, it is defined once:

- `AssetRegistry` serves both asset packages;
- `FirstError` is the "call each, stop at the first error" loop.

`context/task.go` is modelled as written. `popTask` has a value receiver, so it never shrinks the caller's stack. As a result, a task reached twice in one `RunTask` is reported as a recursion even when the graph has no cycle; `Task.DiamondIsReportedAsRecursion` proves this for a diamond. `taskStack` is meant to detect recursion, but because `popTask` never pops, it also rejects shared dependencies. `Task.Walk` threads its stack as a value through the pure `Push`. The `Task.TaskStack` class shows the same push next to the value-receiver `popTask`, which leaves the caller's stack as it was; nothing else calls it. By contrast, the older engine (`plugins/task.go`) really pops its stack, and `PluginTask.DiamondRunsSharedTaskTwice` proves that it runs the shared task twice.

## Model

| member | source | states |
|---|---|---|
| Events.OpsAreDistinctBits | context/event.go:7-13 | The five operation constants are the single bits 1, 2, 4, 8 and 16. They are pairwise distinct and disjoint. |
| Events.PredicatesTestOneBit | context/event.go:19-37 | Each `IsXxx` predicate holds iff its own bit is set. Setting or clearing any other bit does not change it. |
| Events.MultiBitOp | context/event.go:19-37 | For Write+Chmod, `IsWrite` and `IsChmod` both hold and the other three predicates do not. |
| Executor.Execute | context/executor.go:20-25 | Returns exactly the runner's result when the receiver and runner are non-nil. Otherwise returns nil. |
| Executor.Validate | context/executor.go:27-32 | Fails iff the receiver or its runner is nil, with the fixed message. |
| Executor.ValidateGuardsExecute | context/executor.go:20-32 | If validation succeeds, `Execute` returns the runner's result. If validation fails, `Execute` is a no-op. |
| Executor.DescribeIgnoresState | context/executor.go:34-36 | `String` gives "Default Executor" for every receiver, nil included. |
| Executor.WithFields | context/task.go:161-184 | Binding configuration into an executor keeps its kind and replaces exactly its field map. A function executor comes back unchanged, and a struct executor keeps its own `Validate` and `Execute`. |
| Plugin.Execute | context/plugin.go:11-16 | Returns the runner's result when the receiver and runner are present, and nil otherwise. |
| Plugin.Validate | context/plugin.go:18-23 | Fails iff the receiver or runner is nil. |
| Plugin.AgreesWithExecutor | context/plugin.go:11-23 | The plugin's `Execute` and `Validate` agree with those of the function executor wrapping the same runner. |
| Config.Bind | context/task.go:161-184 | One layer sets every existing field that it names with a value of the same kind. It keeps the field set and each field's kind. Fields it does not name, or names with a value of another kind, keep their values. |
| Config.SetStruct | context/task.go:161 | A bindable layer is bound. A layer the binder rejects is an error. |
| Config.ApplyAll | context/task.go:157-189 | The result is nil iff every layer binds, and the field names never change. |
| Config.ApplyAllStops | context/task.go:157-189 | Binding stops at the first rejected layer: its reason is the error, and the fields are what the layers before it left. |
| Config.ApplyAllSnoc | context/task.go:157-189 | Binding one more layer is binding it on top of the earlier result. |
| Config.LastLayerWins | context/task.go:157-189 | After all layers bind, each field holds the value of the last layer naming it with its kind. If no layer does, it keeps its old value. |
| Config.KindKept | context/task.go:157-189 | Binding any number of layers keeps each field's kind. |
| Config.BindIdempotent | context/task.go:161 | Binding a layer twice equals binding it once. |
| Config.MismatchIgnored | context/task.go:161 | Any list of accepted layers that names no field with a value of that field's kind leaves the struct unchanged, without error. |
| Config.MismatchExample | context/task.go:161 | For example, `{extra: true, num: "oops"}` leaves an integer `num` as it was. |
| Task.LastDeps | context/task.go:48-49 | With no `TasksType` argument the task has no dependencies. |
| Task.LastExec | context/task.go:54-59 | The task has an executor iff some argument is a `func() error` or an `Executor`. |
| Task.LastConfig | context/task.go:60-62 | The task has a default configuration iff some argument is a `Config`. |
| Task.ParseArgs | context/task.go:44-68 | The loop panics at the first argument that is unknown or is a second executor or config, with the message numbering it from 1. Otherwise it builds the task from the last argument of each kind, and an empty group becomes the caller's. |
| Task.BadArgMessagesSpelled | context/task.go:47-61 | The unknown-argument, second-executor and second-config panics read `unknown args at arg[N].`, `there is more than one executor in arg[N].` and `there is more than one config in arg[N].`, with N counted from 1. |
| Task.ParseStep | context/task.go:44-64 | Accepting one more argument keeps the prefix free of bad arguments. A `TasksType`, `Usage`, `Group`, executor or `Config` argument replaces the value of its kind, and the others stay. |
| Task.AliasesAt | context/task.go:232-241 | A short name `s` is an alias iff `group.s` is registered, and it stands for that task. |
| Task.PromoteStep | context/task.go:235-239 | One loop iteration adds exactly the alias of its key when the key has the prefix. |
| Task.PromotedAll | context/task.go:232-241 | The loop over a snapshot of all keys yields the registry united with every alias. |
| Task.PromotionIndexes | context/task.go:238 | Aliases point at existing tasks, so the registry stays well indexed. |
| Task.PromotionKeepsNames | context/task.go:232-241 | Every name that is not also a short name keeps its task. A short name reaches the task under its prefixed name. |
| Task.Push | context/task.go:246-258 | A push fails iff the name is on the stack, with the recursion message that prints the call sequence. Otherwise it appends the name at the end. |
| Task.TaskStack.PushTask | context/task.go:246-258 | The stack becomes `Push`'s result and the error is `Push`'s. |
| Task.TaskStack.PopTask | context/task.go:260-264 | The value receiver leaves the caller's stack unchanged. |
| Task.ConfigTask | context/task.go:157-189 | A task has an executor after configuration iff it had one before. |
| Task.ConfigTaskFacts | context/task.go:157-189 | Configuration keeps the executor's kind and field names, a function executor itself, and a struct executor's `Validate` and `Execute`. It fails exactly when some layer cannot bind. On success the fields are those all the layers give, in order. On failure the error is the first rejected layer's, and the fields keep what the layers before it bound. |
| Task.OverrideWins | context/task.go:182-185 | When every layer binds, a field the override names with its kind holds the override's value, whatever the lower layers say. |
| Task.ConfigScenario | context/task.go:157-189 | In the package test's scenario, the task-specific `num` 4 beats the group's and the default's. The group's `baseDir` beats the default's. |
| Task.ScenarioWinners | context/task.go:160-185 | In that scenario the last layer naming `num` gives 4 and the last naming `baseDir` gives "dd". |
| Task.DoTask | context/task.go:107-124 | Doing a task leaves the stack alone, records the task as done and keeps the number of tasks. |
| Task.DoTaskLifecycle | context/task.go:107-124 | Only the task's own executor changes. A task without executor makes no call. A configuration error stops before `Validate`, and a `Validate` error stops before `Execute`. Otherwise the result is `Execute`'s. |
| Task.Walk | context/task.go:206-230 | A name on the stack fails with the recursion error and changes nothing. An unregistered name is pushed and fails with "Could not find task". Every walk only extends the stack and the done list. |
| Task.WalkDeps | context/task.go:214-221 | Walking a dependency list only extends the stack and the done list. |
| Task.WalkFacts | context/task.go:206-230 | A walk keeps the run consistent (no name twice on the stack or among the done tasks), and every task it does was pushed by it. On success the task itself is done last, after every one of its dependencies. |
| Task.WalkDepsFacts | context/task.go:214-221 | Walking a dependency list keeps the run consistent. On success, every dependency was done by this walk. |
| Task.WalkUnfold | context/task.go:206-226 | A walk of a registered name not on the stack walks its dependencies with the name pushed, then does the task unless they failed. |
| Task.WalkDepsUnfold | context/task.go:215-220 | A non-empty dependency list walks its first element, then the rest unless the first failed. |
| Task.DoTaskIdle | context/task.go:107-124 | A task without executor is only recorded as done. |
| Task.DiamondD | context/task.go:206-230 | In the diamond A→[B,C], B→[D], C→[D], walking D under A and B succeeds and leaves D on the stack. |
| Task.DiamondBDeps | context/task.go:214-221 | B's dependencies, walked under A and B, do D and leave it on the stack. |
| Task.DiamondB | context/task.go:206-230 | Walking B under A does D, then B, and leaves both on the stack. |
| Task.DiamondCDeps | context/task.go:250-253 | With D still on the stack, C's dependency D is reported as a recursion, with the call sequence [A B D C]. |
| Task.DiamondCFails | context/task.go:206-230 | Walking C after B's walk reports D as a recursion. |
| Task.DiamondIsReportedAsRecursion | context/task.go:260-264 | As written, running A on the acyclic diamond fails with the recursion error for D. |
| Task.Registry.Task | context/task.go:37-80 | The method panics on an empty name, on no arguments, on a bad argument (exact message) and on an existing qualified name; in each case the registry is unchanged. Otherwise it adds exactly the parsed task under `group.name`. |
| Task.Registry.SetTaskToDefault | context/task.go:232-241 | Adds an alias under the stripped name for every key with the `group.` prefix, keeping the original entries and overwriting existing short names. |
| Task.Registry.UseTasks | context/task.go:130-138 | With no group given it promotes the caller's group. Otherwise it promotes each named group in order, giving `PromotedGroups`. Every name registered before stays registered. |
| Task.PromotedGroupsKeepsNames | context/task.go:134-136 | Promoting several groups in turn loses no registered name. |
| Task.PromotedGroupsLaterWins | context/task.go:134-136 | Groups are promoted in order: after group `g`, the short name `s` stands for the task `g.s` named just before, whatever earlier groups made of `s`. |
| Task.Registry.RunTask | context/task.go:82-128 | Rejects more than one config (the message gives the count), an empty name and an unknown name, without walking. Otherwise it walks from a fresh stack and keeps the executors' new state. |
| Watch.SkipOp | context/watch.go:42-47 | The loop returns the bitwise OR of its arguments, 0 for none. |
| Watch.AndDistributes | context/watch.go:177-180 | A combined mask drops an event iff one of its parts does. |
| Watch.SkippedIffSharesBit | context/watch.go:177-180 | The mask `SkipOp(ops...)` drops an event iff its operation shares a bit with one of `ops`. |
| Watch.DefaultMaskExamples | context/watch.go:125-127 | Under the default Chmod mask, Write+Chmod and Chmod are dropped, and Write or Create+Remove+Rename are not. |
| Watch.LastArgWins | context/watch.go:62-75 | The last argument of each type sets its field. A type that never occurs leaves the field as it was. |
| Watch.DispatchRan | context/watch.go:254-281 | The tasks run in list order. The dispatch stops early only at a failing task, whose error it returns, after every earlier task succeeded. |
| Watch.DispatchOutcome | context/watch.go:266-280 | The callback runs, with the batch, iff every task succeeded and there is a callback. The dispatch succeeds iff every task and the callback did. |
| Watch.AllRunCons | context/watch.go:266-273 | Every task of a non-empty list succeeds iff the first does and all the others do. |
| Watch.Watch.constructor | context/watch.go:60 | A new watch has `waitMsec` 100, merging on, and no tasks, callback, patterns or buffered events. |
| Watch.Watch.SetArg | context/watch.go:62-75 | One argument sets the field of its type and nothing else. |
| Watch.Watch.InitWatcher | context/watch.go:119-144 | An empty base directory becomes "." and a zero mask becomes Chmod. A pattern error is reported as "parse pattern err: …", otherwise the watcher's error. |
| Watch.Watch.DoTask | context/watch.go:254-281 | The loop's result is the specification `Dispatched`: tasks in order up to the first error, then the callback with the batch. |
| Watch.Watch.DelayDoTask | context/watch.go:225-252 | A flush is scheduled iff the buffer was empty. The buffer becomes `Merged`: the bits OR'd into the first entry with the same path when merging, or the event appended. |
| Watch.Watch.Flush | context/watch.go:229-238 | The flush takes the whole buffer and leaves it empty. |
| Watch.Watch.OnEvent | context/watch.go:174-223 | An event sharing a bit with the mask is dropped. A stat error stops, except for a removed path. Past those, a selector error stops with that error and an unmatched path is ignored with nil, neither touching the buffer. Otherwise the event is dispatched at once as a one-event batch when the wait is 0, or buffered. |
| Watch.FindName | context/watch.go:241-248 | The search loop gives the first index of a buffered event with that path. |
| Watch.FirstIndex | context/watch.go:241-248 | The index found holds the path and no earlier entry does. None means no entry holds it. |
| Watch.MergeFacts | context/watch.go:241-251 | When merging into a buffer with distinct paths, paths stay distinct and the event's path is present with all its bits. The length is unchanged iff the path was already buffered, and grows by one iff it was new. Other entries are unchanged and no bit is lost. |
| Watch.MergeExisting | context/watch.go:241-248 | OR-ing into an existing entry keeps the length and paths, adds the event's bits, and changes no other entry. |
| Watch.MergeNew | context/watch.go:250 | Appending a new path keeps the earlier entries and the distinctness of paths. |
| Watch.NoMergeAppends | context/watch.go:241-251 | Without merging every event is appended. |
| Watch.WatchList.Watch | context/watch.go:53-87 | Empty patterns register nothing. Otherwise the call panics on no arguments, on the first unknown argument (message numbered from 1), on neither tasks nor callback, and on a pattern or watcher error. On success it appends exactly one watch carrying the last argument of each type and the defaults. |
| PluginTask.ParsedLastWins | plugins/task.go:51-61 | Dependencies come from the last `Depends` or `[]string` argument and the runner from the last runner argument. Other types change nothing. |
| PluginTask.DependKeepsOrder | plugins/task.go:69-71 | `Depend(names...)` gives exactly those dependencies, in order. |
| PluginTask.AfterAfter | plugins/task.go:82-95 | Runs recorded before runs compose in order. |
| PluginTask.UnfinishedShrinks | plugins/task.go:21-33 | Pushing a registered name not on the stack strictly reduces the registered tasks not yet running, which is why the recursion ends. |
| PluginTask.RunEntry | plugins/task.go:73-101 | Before any dependency runs, a name already running gives the recursion error, an empty name panics "task name is empty", and an unknown name panics "no task : name". |
| PluginTask.RunTrace | plugins/task.go:73-104 | Only runners of registered tasks run, never one already running. A run that did not fail ran the task's own runner last, if it has one. A runner runs only after all its dependencies succeeded. |
| PluginTask.RunDepsTrace | plugins/task.go:82-89 | The same holds for a dependency list. |
| PluginTask.RunDepsStep | plugins/task.go:83-88 | Dependencies run left to right with the same arguments. A failing one ends the list after the earlier ones succeeded. |
| PluginTask.PushedFails | plugins/task.go:83-88 | A failing dependency list ends the task's run with its result. |
| PluginTask.PushedRunner | plugins/task.go:91-95 | After the dependencies succeed the runner runs, and with no runner the result is nil. |
| PluginTask.CycleIsReported | plugins/task.go:21-33 | With A depending on B and B on A, running B reports the recursion of B with [B A] on the stack, and no runner runs. |
| PluginTask.DiamondLeaf | plugins/task.go:73-95 | Under A→B or A→C, running D runs its runner once and succeeds, and running B or C runs D, then itself. |
| PluginTask.DiamondRunsSharedTaskTwice | plugins/task.go:35-95 | Because the stack is popped, a diamond is no recursion and the shared task runs twice. |
| PluginTask.Engine.Task | plugins/task.go:41-67 | The method panics on an empty name, then on a registered name, then on no arguments, leaving the tasks unchanged. Otherwise it registers the parsed task. |
| PluginTask.Engine.PushTask | plugins/task.go:21-33 | Fails iff the name is running, with the recursion message. Otherwise it appends the name. |
| PluginTask.Engine.PopTask | plugins/task.go:35-39 | Removes the last running name, and does nothing on an empty stack. |
| PluginTask.Engine.RunTask | plugins/task.go:73-104 | Gives the outcome `Run` specifies and records its runners in order. The deferred pop restores the running stack on every exit, panics included. |
| PluginTask.Engine.RunPushed | plugins/task.go:80-101 | With the name pushed, the method gives `Pushed`'s outcome and leaves the stack as it found it. |
| PluginTask.Engine.RunDependencies | plugins/task.go:82-89 | The loop gives `RunDeps`'s outcome and leaves the stack as it found it. |
| Scanner.MaxLen | script/scanner.go:33-40 | The result bounds every word's length and is attained by some word; it is 0 for no words. |
| Scanner.MaxWordLenIsSix | script/scanner.go:27-40 | The longest keyword has length 6. |
| Scanner.KeywordTypePaired | script/scanner.go:42-55 | A keyword gets the kind paired with it, any other buffer is a plain line, and the kind is never unknown. |
| Scanner.KeywordTypeExact | script/scanner.go:42-55 | The kind is import, func, type, const or var exactly for that keyword. A buffer longer than 6 is a plain line. |
| Scanner.ScannedIs | script/scanner.go:120-132 | After the loop, `checkValid` feeds one `\n` unless the loop failed, with either `stateEnd`. |
| ScannerKeywords.KeywordScanner.constructor | script/scanner.go:27-31 | Before `init` the longest length is 0 and the keywords and kinds are the paired tables. |
| ScannerKeywords.KeywordScanner.Init | script/scanner.go:33-40 | The loop raises `maxWordLen` to 6. |
| ScannerKeywords.KeywordScanner.CheckKeyword | script/scanner.go:42-55 | Gives `KeywordType` of the buffer. |
| ScannerProperties.ParseLineFacts | script/scanner.go:152-207 | `stateParseLine` never fails and only switches to the escape or end state. |
| ScannerProperties.BeginFacts | script/scanner.go:137-150 | `stateBegin` never fails. |
| ScannerProperties.EndFacts | script/scanner.go:209-236 | `stateEnd`, corrected or as written, fails only for a buffer of unknown kind. |
| ScannerProperties.StepKeeps | script/scanner.go:137-311 | A transition only keeps or empties the buffer, and does not count bytes. |
| ScannerProperties.StepErrorIff | script/scanner.go:292-300 | A step fails iff it leaves the error state set, and only then sets the error. |
| ScannerProperties.StepFailureStops | script/scanner.go:292-300 | Outside the error state, a step fails iff it enters the error state. |
| ScannerProperties.FeedUnfold | script/scanner.go:120-128 | One byte is counted, stepped, then appended if the step asks. |
| ScannerProperties.FailureStops | script/scanner.go:120-128 | Outside the error state, a fed byte fails iff it leaves the error state set. |
| ScannerProperties.ErrorIsSticky | script/scanner.go:292-294 | In the error state every byte is an error and nothing changes. |
| ScannerProperties.BlanksSkipped | script/scanner.go:137-141 | Space, tab, CR and LF before a statement are skipped, not appended. |
| ScannerProperties.CommentAppendsNothing | script/scanner.go:302-308 | `#` starts a comment that consumes bytes up to CR/LF without appending. |
| ScannerProperties.BracketsTracked | script/scanner.go:183-201 | Outside quotes, `(`/`{` count up and `)`/`}` down. A statement ends at a closing bracket or line end only at depth 0. |
| ScannerProperties.QuotesTracked | script/scanner.go:171-181 | Inside quotes only the closing quote and the backslash change anything. |
| ScannerProperties.EscapeChecked | script/scanner.go:239-251 | After `\`, one of b f n r t \\ / " returns to the string, `u` asks for hex digits, and any other byte fails. |
| ScannerProperties.UnicodeEscape | script/scanner.go:253-290 | After `\u`, exactly four hex digits return to the string, and a non-hex byte among them fails. |
| ScannerProperties.KindDecidedOnce | script/scanner.go:152-207 | Once known, the statement's kind stays until it is recorded. |
| ScannerProperties.RecordAppends | script/scanner.go:210-230 | Recording appends the statement to the list of its kind and leaves the others. |
| ScannerProperties.EndRecords | script/scanner.go:209-236 | `stateEnd` records the trimmed buffer, clears it and re-feeds the byte to `stateBegin`. An unknown kind is an error, and an unfinished func keeps parsing. |
| ScannerProperties.TrimLeftFacts | script/scanner.go:214 | Trimming drops exactly the leading blanks. |
| ScannerProperties.TrimRightFacts | script/scanner.go:214 | Trimming drops exactly the trailing blanks. |
| ScannerProperties.TrimSpaceFacts | script/scanner.go:214 | A recorded statement has no blank at either end and is the buffer without its blank ends. |
| ScannerProperties.FeedAppends | script/scanner.go:120-128 | Only a byte whose step returns append-buffer is appended, and the counter counts every byte. |
| ScannerProperties.AppendedFacts | script/scanner.go:125-126 | Appending after a step adds exactly the byte to the buffer the step left. |
| ScannerFinding.FeedAllCons | script/scanner.go:120-128 | The loop continues with the rest after a byte that does not fail. |
| ScannerFinding.FuncHeaderScanned | script/scanner.go:152-207 | "func f()" leaves a func statement at depth 0 in `stateEnd`, with nothing recorded. |
| ScannerFinding.FeedEndAsWritten | script/scanner.go:215-221 | As written, `stateEnd` appends the byte after an unfinished func without looking at it. |
| ScannerFinding.FeedEndUnfinished | script/scanner.go:215-221 | Corrected, that byte goes on to `stateParseLine`, which counts a `{`. |
| ScannerFinding.BodyLost | script/scanner.go:189-221 | As written, the `{` is not counted and the `}` takes the depth to -1. |
| ScannerFinding.BodyClosed | script/scanner.go:189-201 | Corrected, the `}` ends the statement at depth 0. |
| ScannerFinding.LineEndInside | script/scanner.go:192-201 | A line end inside brackets does not end the statement. |
| ScannerFinding.FuncWithoutSpaceLost | script/scanner.go:209-236 | As written, "func f(){}" is never recorded and no error is reported. |
| ScannerFinding.FuncWithoutSpaceRecorded | script/scanner.go:209-236 | Corrected, "func f(){}" is recorded as one func. |
| ScannerObject.ScriptScanner.constructor | script/scanner.go:72-97 | A new scanner is in its initial state and keeps the chosen `asWritten` mode. |
| ScannerObject.ScriptScanner.Init | script/scanner.go:99-106 | `init` resets step, error, counter, kind, quote flag and depth. |
| ScannerObject.ScriptScanner.Error | script/scanner.go:296-300 | Enters the error state with the message naming the byte. |
| ScannerObject.ScriptScanner.StateBegin | script/scanner.go:137-150 | The fields change as `StepBegin` says. |
| ScannerObject.ScriptScanner.StateParseLine | script/scanner.go:152-207 | The fields change as `StepParseLine` says. |
| ScannerObject.ScriptScanner.ParseUnknown | script/scanner.go:153-169 | Before the kind is known, the fields change as `StepUnknown` says. |
| ScannerObject.ScriptScanner.ParseQuoted | script/scanner.go:171-181 | Inside quotes, the fields change as `StepQuoted` says. |
| ScannerObject.ScriptScanner.ParseCode | script/scanner.go:183-202 | Outside quotes, the fields change as `StepCode` says. |
| ScannerObject.ScriptScanner.RecordLine | script/scanner.go:210-230 | Appends the trimmed buffer to the list of its kind. |
| ScannerObject.ScriptScanner.StateEnd | script/scanner.go:209-236 | With `asWritten`, the fields change as `StepEndAsWritten` says: a func buffer without `{` switches to `stateParseLine` and appends the byte unseen. Without it, they change as the corrected `StepEnd` says. |
| ScannerObject.ScriptScanner.StateInStringEsc | script/scanner.go:239-251 | The fields change as `StepEsc` says. |
| ScannerObject.ScriptScanner.StateInStringEscU | script/scanner.go:253-290 | The fields change as `StepEscU` says. |
| ScannerObject.ScriptScanner.StateComment | script/scanner.go:302-308 | The fields change as `StepComment` says. |
| ScannerObject.ScriptScanner.DoStep | script/scanner.go:122 | The current state's transition is applied: `StepAsWritten` with `asWritten`, the corrected `Step` otherwise. |
| ScannerObject.ScriptScanner.FeedByte | script/scanner.go:120-128 | One loop iteration is applied, as `Feed` says, with the scanner's own `asWritten` choice of `stateEnd`. |
| ScannerObject.ScriptScanner.CheckValid | script/scanner.go:108-135 | The loop ends in the state `Scanned(…, asWritten)` specifies and returns the first error or nil. With `asWritten` this is the code as written, which loses `func f(){}` (`ScannerFinding.FuncWithoutSpaceLost`); without it, the corrected scanner. |
| HexWriter.DigitValue | tasks/asset/hexwriter.go:7 | A lower-case hex digit's value is in 0..15 and indexes that digit in the table. |
| HexWriter.HexTableDigits | tasks/asset/hexwriter.go:7 | The table holds the sixteen digits in order. |
| HexWriter.EscapeDecodes | tasks/asset/hexwriter.go:19-24 | Each byte's `\xHH` reads back as that byte. |
| HexWriter.UnhexEscape | tasks/asset/hexwriter.go:22-27 | An escape in front of more escapes reads back as its byte in front of theirs. |
| HexWriter.HexLength | tasks/asset/hexwriter.go:22-27 | The output is exactly 4·len(p). |
| HexWriter.HexAt | tasks/asset/hexwriter.go:19-25 | The i-th four bytes are `\`, `x`, `hextable[p[i]>>4]` and `hextable[p[i]&0x0f]`. |
| HexWriter.HexSnoc | tasks/asset/hexwriter.go:22-27 | Writing p then b writes what writing p+[b] writes. |
| HexWriter.HexRoundTrip | tasks/asset/hexwriter.go:22-27 | Decoding the hex pairs gives back p. |
| HexWriter.HexWriter.Write | tasks/asset/hexwriter.go:14-32 | Empty input writes nothing and returns 0. Otherwise the writer receives `Hex(p)`, `off` grows by len(p), and the result is len(p). The error is always nil. |
| License.PrependedFacts | tasks/license/license.go:38-53 | The loop rewrites only files lacking the head, and only by putting the head in front. No file appears or vanishes. |
| License.PrependedSucceeds | tasks/license/license.go:42-47 | After a successful run every listed file starts with the head: unchanged if it had it, otherwise the head followed by the old contents. |
| License.PrependedSplit | tasks/license/license.go:39-44 | A read or open failure stops the loop, and later files are untouched. |
| License.PrependedIdempotent | tasks/license/license.go:42-47 | Running the loop twice gives the same contents and result as once. |
| License.ValidatedFacts | tasks/license/license.go:57-81 | Empty patterns become `**/*.go`. An empty base directory becomes the working directory, whose error is returned. An empty head gives "License head is empty.". Success means a head, patterns, a base directory and the matched files. |
| License.LicenseTask.constructor | tasks/license/license.go:24-31 | The registered task has the default pattern and the copyright head. |
| License.LicenseTask.Validate | tasks/license/license.go:57-81 | The fields become `Validated`'s and the error is its error. |
| License.LicenseTask.Execute | tasks/license/license.go:36-55 | The file system becomes `Prepended`'s and the result is its error. |
| Dist.Validate | tasks/dist/dist.go:71-92 | Returns the error for the first empty field in the order DistDir, BinName, BudScriptFile, GOOSs, GOARCHs, and nil iff all five are non-empty. |
| Dist.DefaultIsValid | tasks/dist/dist.go:21-29 | The registered default task validates. |
| Dist.Abs | tasks/dist/dist.go:36-49 | An absolute path is kept. A relative one is joined to the working directory, whose error passes through. |
| Dist.BinPathShape | tasks/dist/dist.go:57-60 | The binary lies at `distDir/<goos>_<goarch>/BinName`, with `.exe` iff goos is windows. |
| Dist.RowAt | tasks/dist/dist.go:56-65 | The inner loop builds one binary per GOARCH, in order. |
| Dist.PlanSplit | tasks/dist/dist.go:55-66 | GOOS is the outer loop: the plan is the earlier GOOSs' builds, then this GOOS's row, then the rest. |
| Dist.PlanLength | tasks/dist/dist.go:55-66 | One build runs per (goos, goarch) pair. |
| Dist.ExecutedFacts | tasks/dist/dist.go:34-69 | A path or generation error starts no build. Otherwise the builds started are a prefix of the plan, every one succeeded except possibly the last, whose error is returned. |
| Dist.Execute | tasks/dist/dist.go:34-69 | The result is the `Executed` specification: absolute paths, the script generated into `source.go`, then the builds. |
| Dist.BuildAll | tasks/dist/dist.go:55-68 | The nested loops run the plan's builds in order up to the first failure. |
| FirstError.CallsFacts | builtin/path.go:30-37 | The elements called are a prefix. Every call but a failing last one succeeded. The result is nil iff all were called and succeeded, and otherwise it is the last call's error. |
| FirstError.CallsAfter | seed/seed.go:126-134 | Successful calls in front of a run do not change where it stops. |
| Builtin.Each | builtin/path.go:28-38 | A nil function visits nothing and returns nil. Otherwise it calls `fun` on the paths in order up to the first error, which it returns. |
| AssetRegistry.RegisterAllFacts | asset/asset.go:35-41 | A batch registers without panic iff its names are distinct and none is registered. Then each asset is under its name. Earlier entries stay, and nothing but the batch's names is added. |
| AssetRegistry.RegisterAllPanics | asset/asset.go:35-41 | A panic comes from the first asset whose name is taken, with the assets before it registered. |
| AssetRegistry.Registry.Register | asset/asset.go:30-42 | A nil batch panics with the fixed message and changes nothing. Otherwise the registry and completion are `RegisterAll`'s. |
| AssetRegistry.Registry.Stat | asset/asset.go:58-70 | An empty name is the error "asset open file name empty", a registered name gives its asset, and any other name goes to the file system. |
| AssetRegistry.StatAfterRegister | asset/asset.go:30-70 | After a batch registers, `Stat` of each of its names gives that asset. |
| AssetRegistry.ReadFromBuffer | asset/asset.go:105 | Reading from a filled buffer returns at most len(p) bytes, reads then rest equal the buffer, and the read is EOF iff the buffer is empty and len(p) > 0. |
| AssetRegistry.FirstRead | asset/asset.go:87-105 | The first read unzips. A size mismatch is the unzip error but keeps the data for later reads. |
| Asset.AssetFile.Close | asset/asset.go:108-110 | `Close` always returns nil. |
| Asset.AssetFile.Read | asset/asset.go:82-106 | A directory reads 0 bytes with no error and leaves the buffer alone. Otherwise the read follows `ReadFile`, and n is the number of bytes given. |
| Asset.Open | asset/asset.go:44-56 | An empty name is an error, a registered name gives a fresh file over that asset, and any other name goes to the file system. |
| Asset.StatReportsRegistered | asset/asset.go:112-130 | After registration, `Stat` of an asset reports its N, S, M, MT and D. |
| TaskAsset.AssetFile.Close | tasks/asset/asset.go:88-90 | `Close` always returns nil. |
| TaskAsset.AssetFile.Read | tasks/asset/asset.go:66-86 | The read follows `ReadFile`, with no directory branch, and n is the number of bytes given. |
| TaskAsset.Open | tasks/asset/asset.go:29-41 | Same as `Asset.Open` for this package's registry. |
| TaskAsset.StatReportsRegistered | tasks/asset/asset.go:92-110 | After registration, `Stat` reports N, S, M and MT, and `IsDir` is false. |
| Seed.DuplicateMessageQuotesName | seed/seed.go:38 | The intended message puts exactly the name between the quotes. |
| Seed.DuplicateMessageAsWrittenGarbles | seed/seed.go:38 | With `%d`, what stands between the quotes is never the name. |
| Seed.AppendKeepsAgreement | seed/seed.go:40-41 | Appending a new seed at index len keeps the list and the map in agreement. |
| Seed.SeedRegistry.Register | seed/seed.go:32-43 | A nil seed panics, and a duplicate name panics with the message as written (`%!d(string=…)`), leaving both structures unchanged. Otherwise the seed is appended and its name maps to the old length. Agreement is kept. |
| Seed.SeedRegistry.GetSeed | seed/seed.go:118-124 | Returns the seed registered under the name, or nil. |
| Seed.SeedRegistry.Each | seed/seed.go:126-134 | Visits seeds in registration order and stops at, and returns, the first error. |
| Seed.SeedRegistry.SelectSeed | seed/seed.go:86-107 | An empty list panics. Otherwise the method reads lines until one picks a seed (a blank line picks `_seeds[0]`) and gives nil at the end of input. |
| Seed.SelectionFacts | seed/seed.go:90-104 | The selection is nil iff no line picks a seed. Otherwise it comes from the first line that picks one: the first seed for a blank line, the registered seed for a name. |
| Common.StatusAfterIsMax | common/common.go:12-18 | Successive `SetExitStatus` calls leave the largest of the start and all arguments, and never lower the status. |
| Common.PanicIfError | common/common.go:33-38 | Nil passes, and an error panics with its message. |
| Common.ExitState.constructor | common/common.go:8-20 | The status starts at 0 with no callbacks. |
| Common.ExitState.SetExitStatus | common/common.go:12-18 | The status becomes max(old, n). |
| Common.ExitState.Atexit | common/common.go:22-24 | The callback is appended after the earlier ones. |
| Common.ExitState.Exit | common/common.go:26-31 | Runs every callback in registration order, then exits with the status. |
| Command.StringList | cmd/command.go:66-79 | The loop gives `Flatten`: the concatenation of the contributions, or the "stringList: invalid argument" panic. |
| Command.FlattenEmpty | cmd/command.go:66-79 | No arguments give the empty list. |
| Command.FlattenPanics | cmd/command.go:74-75 | The result panics iff some argument is neither a string nor a `[]string`. |
| Command.ConcatAppend | cmd/command.go:68-77 | Flattening a+b is flattening a followed by flattening b. |
| Command.ConcatSingle | cmd/command.go:70-73 | A string contributes itself, and a `[]string` all its elements in order. |
| Command.ConcatLength | cmd/command.go:68-77 | The length is the sum of the contributions. |
| Fmt.DecimalValue | context/task.go:47 | The decimal rendering used for `arg[%d]` and counts reads back as the number, and has no leading zero. |

## Left out

- Concurrency: the `beginWatch` goroutine, the sleep-then-flush goroutine, the locks and signal handling in `StartWatchs`/`StopWatchs`. Buffering and flushing are sequential methods. The race of the flushed batch aliasing the live buffer is outside the model.
- fsnotify, `os.Stat` and the path selector are parameters of `OnEvent`, `InitWatcher`, `LicenseTask.Validate` and `Builtin.Each`'s callers. `FindFiles` and `addAllDir` are not modelled because they only call the selector.
- The reflective `Config.SetStruct`, `SubConfig` and `Merge`. Layers are partial maps from field name to value, bound onto an executor's named fields only when the field exists and has the same kind.
- `getTaskDefaultGroupName` (it uses `runtime.Caller`) is replaced by the `callerGroup` parameter.
- The `Catch` panic-to-error wrappers. Executor faults are error results.
- `setTaskToDefault` visits a snapshot of the keys. Go leaves it open whether keys added during the loop are visited.
- Gzip is a parameter `unzip` of `Read`. The copy of the `Buf` pointer when `Open` returns `&asset` is not modelled: each opened file starts with its own buffer.
- The file-system fallback of `Open`/`Stat` for an unregistered name is the result `InFileSystem(name)`.
- `os.Getwd`, `filepath.Abs` and `filepath.Join` are simplified. `Abs` joins a relative path to the working directory with `/` and does not clean `.` or `..`. `Join` is modelled the same way.
- License.ReadError, License.OpenError: the read and open failures of the license loop carry fixed texts (`open f: no such file or directory`, `open f: permission denied`). Go passes on whatever `*PathError` the operating system gives.
- Write errors after the license head is written are ignored by the source (`Log.Debug` only). The model's file system rewrites every writable file.
- The interactive I/O of `CreateSeed`, `Run` and `printSeedList`. `SelectSeed` takes the lines typed as a sequence.
- `LogFatalExit`, logging in general, and `os.Exit` (which the model gives back as the exit code).
- Callbacks and runners are modelled by the result they give (functions to `Status`). `atexit` callbacks are modelled by an identifier each. Side effects of user code are not modelled.
- Strings are sequences of characters, one per byte. The scanner works on bytes.
- TrimSpace: trims only the ASCII white space bytes 9-13 and 32. Go's `strings.TrimSpace` also trims Unicode white space, such as U+0085, U+00A0 and U+2000-U+200A, so a statement ending in a no-break space keeps those bytes in the model.
- A typed-nil function argument to `Watch` or to the plugin engine's `Task` is not representable: `Watch.FuncArg` and `PluginTask.RunnerArg` always hold a function. In Go it resets the watch callback to nil, and it stores a nil runner that `RunTask` skips as if none had been given. (`Task.FuncArg` of context/task.go does carry a nil runner.)
- `checkValid`'s absolute-path check and file read. `CheckValid` takes the file's bytes.
- `matchPattern`, `panicOnError`, `run` and `runOut` in cmd/command.go are process I/O and regexp wrappers.
- `Dist.Abs`: the error of `filepath.Abs` is the working directory's error. No other failure is modelled.
- `Task.Walk`: the "Could not find task" error of a dependency that is not registered is modelled. The `task.lock` around `doTask` is not.

## Findings

| source | as written | input that shows it | evidently intended | confidence | as-written member | corrected member |
|---|---|---|---|---|---|---|
| script/scanner.go:215-221 | For a func whose buffer has no `{` yet, `stateEnd` switches to `stateParseLine` and returns append-buffer without letting `stateParseLine` see the byte. | `func f(){}`: the `{` straight after `)` is appended but not counted, `}` takes the depth to -1, and the function is never recorded. No error is reported. | The byte goes on to `stateParseLine`, so a `{` is counted and the body closes the statement, which is recorded as a func. | not executed | ScannerFinding.FuncWithoutSpaceLost | ScannerFinding.FuncWithoutSpaceRecorded |
| seed/seed.go:38 | The duplicate-name panic formats the name with `%d`. | Registering two seeds named `x`: the message is `Already has a seed named '%!d(string=x)'`. | The name appears between the quotes (`%s`). | not executed | Seed.DuplicateMessageAsWrittenGarbles | Seed.DuplicateMessageQuotesName |
