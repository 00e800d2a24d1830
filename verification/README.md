# LTF, verified

LTF runs tests written in Lua. This project models the parts of it that decide something: which
keywords a test's log shows, what verdict a test gets and what its teardown may change, what comes
back out of a raw log, a Lua value or a `.secrets` file, which tests run with which variables, and
what arrives over SFTP. Each part is written the way the program is (records with fields updated in
place become classes, loops become loops, buffers become arrays), proved against a specification,
and what the program promises is then proved about that specification, for all inputs and all runs.
What a specification is built from is told a second time without it: by place, by field, by text.

- **Growable arrays**: `DynArray`, the substrate of the rest.
- **Keyword recorder**: `KeywordStatus` (the hooks, the stack of raw pointers), `KeywordHooks` (what
  one call and one return do, written out), `KeywordForest` (the forest they build),
  `KeywordPointers` and `KeywordFaults` (when the pointers stay good), `KeywordCutOff` (tests that
  raise inside open calls), `KeywordEvents` (any events at all), `LogsPrinter` (how the forest is
  drawn), `KeywordText` (its lines), `Keywords` (the record), `KeywordLog` (end to end).
- **Test runs**: `TestProtocol` (steps and invariant), `TestRuns` (whole runs as functions of what the
  Lua code does), `TestRecords` (a record field by field), `Reachable` (every state a run goes
  through), `TestRunner` (the runner that executes them), `RunState`, `LogLevel`.
- **Paths**: `Paths` (what normalising means), `PathRewrite` (the two C implementations).
- **Round trips**: `Json`, `LuaJson` (Lua values), `StateJson`, `StateConverters`, `LogMembers` and
  `RunLogs` (the raw log), `Secrets` and `SecretsFile` (`.secrets`).
- **Configuration**: `Scenarios`, `ScenarioLists`, `CmdVars`, `Vars`, `Duplicates`, `TestRegistry`, on
  `Pairs`.
- **File transfer**: `Sftp`.
- `Options`, `Text` and `Seqs` are vocabulary: optional values, strstr, strtok, C strings in buffers.

Lua code is modelled by what it does to LTF: the calls it makes, the lines it logs and the defers it
registers, in any order, and whether it raises. Texts of the clock, tracebacks and the order in which
`lua_next` visits keys are arbitrary. So the theorems hold for every test body, hook and defer.

## Where the code and its documentation part

- A raw keyword pointer can dangle. When a library function calls another library function (which is
  not recorded) and that one calls recorded code back, the callbacks become roots, and the tenth such
  root moves the array that holds the outer function's own keyword; its return, or the next recorded
  call it makes, then writes through the old pointer. `KeywordEvents.EveryTest` says exactly which
  tests do this, whatever events they produce; for tests in which every call returns it comes down to
  the outermost calls (`KeywordPointers.TestRecordsForest`). `KeywordPointers.CallbacksFault`,
  `KeywordCutOff.RaisingAfterCallbacks` and `KeywordCutOff.CallAfterCallbacks` give families of runs
  that do and do not.
- A call that is left without a return event (a tail call, or an error the test catches) shifts the
  returns after it: the recorder closes the innermost open call instead of the one that returns.
  `KeywordEvents.EveryTest` tells what is recorded, `KeywordEvents.TailCallLeavesOpen` shows it.
- Defers are told the "final status" (docs/TESTS/TEST_TEARDOWN.md), but a test that is failed by
  `log_error` alone tells them "passed": `TestRuns.StatusIsVerdict` says when the two agree,
  `TestRuns.ErrorLineTellsPassed` gives the test.
- Only the first hook of an event runs at the hook stage. Logging is allowed in hooks
  (docs/HOOKS/HOOKS.md), yet a line logged by a later `test_run_started` hook ends the program, and
  one logged by a later `test_started` hook counts as the test's: `TestRuns.RunOutcome`,
  `TestRuns.SecondHookEndsRun`, `TestRuns.LateHooksCount`, `TestRuns.SecondHookFailsTest`.
- `sftp:send` refuses every chunk with a NUL byte in it, because the binding compares `strlen` with
  the size. The remote file is then cut at the start of the chunk that holds the first NUL, and the
  handle stays open, so the next transfer on that channel fails: `Sftp.Send`, `Sftp.ArrivingIs`,
  `Sftp.SendNul`.
- `resolve_symlinks = false` (docs/LTF_LIBS/ltf.ssh.md) has no effect: links are always followed.
  `Sftp.ResolveIsIgnored` says when that is not what was asked for, `Sftp.FalseIsIgnored` gives the
  links.
- JSON integers come back as doubles, so an integer survives exactly when it is one:
  `LuaJson.RoundTrip`, `LuaJson.InexactInteger`.
- The raw log keeps neither the status enum nor the end of the teardown, and its total is recomputed
  from the number of entries: `StateJson.LogRoundTrip`.
- Includes of scenario files end exactly when no path is reached twice: `Scenarios.IncludesEnd`,
  `Scenarios.SelfIncludeNeverEnds`. Paths are texts: the same file can be reached under ever longer
  ones.

## Model

| member | source | states |
|---|---|---|
| `DynArray.DynArray.Append` | src/util/da.c:73-82 | the contents grow by the element at the end; the buffer is replaced exactly when it was full, by one of twice the capacity, moving every live element once |
| `DynArray.DynArray.Reserve` | src/util/da.c:54-71 | contents kept; a new buffer exactly when the capacity was too small |
| `DynArray.DynArray.Pop` | src/util/da.c:123-136 | takes out the element at an index and closes the gap, everything else in order; nothing changes for an index outside |
| `DynArray.DynArray.Set` | src/util/da.c:96-104 | replaces one element and no other, or refuses an index outside |
| `DynArray.DynArray.Resize` | src/util/da.c:111-121 | only grows, keeping what was there |
| `DynArray.DynArray.AppendAll` | src/util/da.c:14-82 | n appends hold exactly the n elements, at the capacity doubling leads to, having moved at most 2n elements |
| `DynArray.GrownStep` | src/util/da.c:14-23 | one more append grows the buffer exactly when it is full, and then moves as many elements as there are |
| `DynArray.GrownIs` | src/util/da.c:14-23 | which capacity that is: the first one, or twice the one that holds half as many |
| `DynArray.GrownMonotone` | src/util/da.c:14-23 | two sizes share a buffer exactly when the larger fits the smaller one's capacity |
| `DynArray.AmortisedGrowth` | src/util/da.c:14-23 | n appends to a fresh array move at most 2n elements, whatever it was created with |
| `KeywordStatus.Recorder.CallHook` | src/keyword_status.c:36-94 | the statement-by-statement hook does what `OnCall` says, including whether it follows a stale pointer |
| `KeywordStatus.Recorder.RetHook` | src/keyword_status.c:96-126 | the same for returns: one entry popped, its keyword closed unless it was ignored |
| `KeywordStatus.EditKeeps` | src/keyword_status.c:71-83 | writing through a pointer leaves every other path and every other array's size as it was |
| `KeywordStatus.EditNewest` | src/keyword_status.c:74-82 | editing the element just appended is appending the edited element |
| `KeywordHooks.LibraryCallDropped` | src/keyword_status.c:57-61 | a named Lua function with the library directory anywhere in its source, called by library code, is pushed as ignored and leaves the forest as it was |
| `KeywordHooks.CallBecomesRoot` | src/keyword_status.c:71-93 | any other, without a recorded caller, becomes the last root: its name, source, line and time, open and without children |
| `KeywordHooks.CallBecomesChild` | src/keyword_status.c:71-93 | with a recorded caller it becomes that keyword's last child; every other keyword and every other array stays as it was |
| `KeywordHooks.LibraryIsNoted` | src/keyword_status.c:59-60 | a call is noted as library code if and only if the directory is somewhere in its source |
| `KeywordHooks.Unseen` | src/keyword_status.c:36-49 | C functions, functions without a name and calls outside a test change nothing |
| `KeywordHooks.NothingBetweenTests` | src/keyword_status.c:20-38 | whatever is called between two tests, the next one starts with an empty forest and an empty stack |
| `KeywordHooks.ReturnFinishes` | src/keyword_status.c:113-125 | a return takes the innermost entry off and writes the time into its keyword, if it has one, and into nothing else |
| `KeywordHooks.FaultIsStale` | src/keyword_status.c:71-80 | a fault is the innermost call's pointer into a buffer that its array has left, used by a recorded call or at the return |
| `KeywordHooks.BufferIs` | src/keyword_status.c:22-24 | that array has room for ten, and for twice as many each time it is full |
| `KeywordHooks.CallsAsTheyCome` | src/keyword_status.c:36-126 | a function that calls another, and then a third: the six hook events, and the forest they leave |
| `KeywordHooks.CallbackIsRoot` | src/keyword_status.c:57-83 | a library function that calls another one, which calls test code back: the second is dropped and the callback is a root |
| `KeywordForest.RunRecordsForest` | src/keyword_status.c:36-126 | a well-nested run, from any state the hooks can reach, leaves the stack as it was and adds exactly the keywords of the recursive specification `Forest`: dropped exactly when it and its caller are library code, under its recorded caller, or a root in call order |
| `KeywordForest.ForestFinished` | src/keyword_status.c:118-125 | every keyword recorded by a well-nested run is closed, at any depth |
| `KeywordForest.ForestIsComplete` | src/keyword_status.c:52-80 | for every function, the forest holds as many keywords as there are calls to it that are not library code called by library code: nothing is lost or recorded twice |
| `KeywordPointers.ChainAfterStep` | src/keyword_status.c:51-93 | after every event the stack is a chain of root-to-node paths |
| `KeywordPointers.AppendsUnderPointer` | src/keyword_status.c:71-80 | in every such state a stack entry points into the array about to be appended to if and only if the caller is a dropped frame |
| `KeywordPointers.CallLosesPointer` | src/keyword_status.c:71-80 | a recorded call invalidates a pointer if and only if its caller was dropped and the roots' buffer is full |
| `KeywordPointers.GuardedRunIsSafe` | src/keyword_status.c:36-126 | over any events, balanced or not (tail calls included), in which dropped frames call only library code: all pointers stay good and no stale one is followed |
| `KeywordPointers.GuardedTestIsSafe` | src/keyword_status.c:20-126 | the same for a test, from its start: no stale pointer is followed over any such events |
| `KeywordPointers.RunWithinRoom` | src/keyword_status.c:36-126 | a well-nested run whose new roots fit the roots' buffer follows no stale pointer |
| `KeywordPointers.FaultsExactlyWhenOutgrown` | src/keyword_status.c:96-126 | a well-nested run follows a stale pointer if and only if some outermost call records more roots than the buffer its own keyword is in has room for |
| `KeywordPointers.TestRecordsForest` | src/keyword_status.c:20-126 | a whole test in which every call returns: empty stack, the specified forest, everything closed, and a stale pointer followed exactly in that case |
| `KeywordPointers.CallbacksFault` | src/keyword_status.c:52-80 | for a library function whose library callee calls test code k times: faulty if and only if k >= 10 |
| `KeywordFaults.CallsFault` | src/keyword_status.c:71-80 | in any state the hooks can reach, a well-nested run follows a stale pointer if and only if some recorded root is used, by a recorded call it makes or at its return, when the roots have outgrown the buffer they were in when it was added |
| `KeywordFaults.WholeTestFits` | src/keyword_status.c:36-126 | over a whole test in which every call returns that condition is the one about outermost calls |
| `KeywordCutOff.RunRecordsCut` | src/keyword_status.c:36-126 | a run cut off inside open calls, from any state the hooks can reach, adds exactly the keywords of the specification and leaves exactly the open calls on the stack, each entry pointing to its own unfinished keyword |
| `KeywordCutOff.CutUnfinished` | src/keyword_status.c:62-69 | as many keywords are unfinished as recorded calls are open |
| `KeywordCutOff.CutFault` | src/keyword_status.c:71-80 | a run that is cut off follows a stale pointer if and only if some recorded root, open or returned, is used when the roots have outgrown its buffer |
| `KeywordCutOff.TestCutOff` | src/ltf_test.c:207-242 | a test whose body raises: the specified forest with exactly the open calls unfinished, a stack of exactly those calls, and a stale pointer followed if and only if the condition of `CutFault` fails |
| `KeywordCutOff.RaisingAfterCallbacks` | src/keyword_status.c:52-80 | a library function that raises after any number of callbacks through another one has followed no stale pointer |
| `KeywordCutOff.CallAfterCallbacks` | src/keyword_status.c:52-80 | if it calls test code itself after k of them, and that raises, it has if and only if k >= 10 |
| `KeywordEvents.RunsAsRead` | src/keyword_status.c:96-126 | any events do what the run does that a return-closes-the-innermost-call reading gives |
| `KeywordEvents.EveryTest` | src/keyword_status.c:20-126 | every test, over any events (caught errors, tail calls, returns without a call): the forest, the stack, the number of unfinished keywords, and exactly when a stale pointer was followed |
| `KeywordEvents.TailCallLeavesOpen` | src/keyword_status.c:128-135 | a tail call: the return of the outer function closes the function that made it, and the outer one stays unfinished |
| `LogsPrinter.EnsureDepth` | src/ltf_logs.c:133-142 | the vector reaches the depth, new levels saying "no later sibling", old ones kept |
| `LogsPrinter.Printer.PrintKeyword` | src/ltf_logs.c:167-227 | prints the pure rendering of the subtree, given what the shared vector says about the levels above, and leaves those levels as they were |
| `LogsPrinter.Printer.PrintNode` | src/ltf_logs.c:176-216 | header and properties with the counter-driven corners: only the last property has one |
| `LogsPrinter.Printer.PrintTree` | src/ltf_logs.c:229-243 | the whole tree printed from a fresh vector is the pure rendering |
| `LogsPrinter.TreeIsBlocks` | src/ltf_logs.c:144-227 | the text is, node by node, a block told by the node's path alone: column i is drawn through if and only if the i-th ancestor has a later sibling |
| `LogsPrinter.EveryNodeOnce` | src/ltf_logs.c:167-243 | the nodes drawn are exactly the nodes of the tree, each once, parents before children and siblings in order |
| `KeywordText.NodeSays` | src/ltf_logs.c:167-217 | the lines of a keyword, text by text: name, start, finish if there is one, declaration, and a heading for its children |
| `KeywordText.RailsAt` | src/ltf_logs.c:144-151 | the columns in front of them: eight for every ancestor, drawn through if and only if it has a later sibling |
| `KeywordText.DeclarationSays` | src/ltf_logs.c:206-207 | a declaration is file, ":" and line, cut to 4127 characters |
| `KeywordText.DigitsRead` | src/ltf_logs.c:207-207 | the digits of the line number read back as the number, without leading zeros |
| `KeywordText.SmallTree` | src/ltf_logs.c:219-243 | a tree of three: the parent, its child one level in, and the sibling |
| `KeywordLog.DrawCalls` | src/ltf_logs.c:229-243 | end to end, as it runs: the hooks see the calls of a test, the forest is written to the raw log, read back and printed; the text is that of the specified forest, every keyword exactly once, in preorder, its block told by its place, and a stale pointer was followed exactly when an outermost call outgrew its keyword's buffer |
| `TestProtocol.JudgeKeeps` | src/ltf_test.c:230-242 | the verdict step keeps the invariant: counters equal the numbers of verdicts, FAILED if and only if there is a failure reason |
| `TestProtocol.ActKeeps` | src/ltf_state.c:409-466 | whatever Lua code logs or defers, in whatever state, keeps the invariant |
| `TestProtocol.FinishedCounts` | src/ltf_state.c:543-587 | in a consistent run passed + failed is the number of tests with a verdict |
| `TestRecords.LineLogged` | src/ltf_state.c:409-447 | one logged line in every state of the test: which lists its entry goes to, with file ("unknown" if there is none), line, time, level and text, and when it marks the test |
| `TestRuns.PerformedRunning` | src/ltf_state.c:423-440 | while the test runs, code adds its lines to the outputs, its error lines to the reasons, and marks the test if and only if there is one |
| `TestRuns.PerformedSilently` | src/ltf_state.c:445-447 | at the hook stage, and after the verdict, lines leave the record alone |
| `TestRuns.DefersRunReversed` | src/ltf_test.c:79-152 | the defers run newest first, each exactly once, whichever of them raise, while what they register waits behind them |
| `TestRuns.TeardownRuns` | src/ltf_test.c:79-152 | teardown as a whole: one error entry per raising defer in execution order; verdict, status text, reasons, outputs and counters as before; defers registered meanwhile do not run and the queue ends empty |
| `TestRuns.TestRunIs` | src/ltf_test.c:176-250 | one test, whatever its hooks, body and defers do: its final record, counters, waiting and executed defers |
| `TestRecords.BodyLine` | src/ltf_state.c:409-425 | every line the body logs has its entry in the outputs, with its own file, line, time, level and text, at its own place |
| `TestRecords.HookLine` | src/ltf_hooks.c:287-317 | and so has every line of a test-start hook after the first |
| `TestRecords.OutputCount` | src/ltf_state.c:423-425 | and there are no other outputs |
| `TestRecords.ReasonsAre` | src/ltf_state.c:564-587 | the failure reasons are the outputs of level ERROR, in order, and then what the body raised: its traceback, place, the time of the verdict, level CRITICAL |
| `TestRecords.RecordSays` | src/ltf_test.c:176-250 | everything else the record says, field by field, and the counters: FAILED if and only if the body raised or an output has level ERROR |
| `TestRecords.BodyDeferRuns` | src/ltf_test.c:94-142 | a defer of the body runs right after those the body registers later |
| `TestRecords.HookDeferRuns` | src/ltf_test.c:94-142 | one of a test-start hook after those of the body and of the hooks behind it |
| `TestRecords.EarlierDeferRuns` | src/ltf_test.c:94-142 | one that was waiting before the test after all of these |
| `TestRecords.ExecutedCount` | src/ltf_test.c:94-152 | no other defer runs, and none twice |
| `TestRecords.FinishHookWaits` | src/ltf_test.c:79-152 | what a test-finish hook registers waits for the next test |
| `TestRecords.DeferErrorAt` | src/ltf_state.c:495-519 | every defer that raises has its entry in the teardown errors, in the order they run: its traceback, place and time, level CRITICAL; there are no others |
| `TestRecords.DeferLineAt` | src/ltf_state.c:442-446 | every line a defer logs has its entry in the teardown outputs, in the order they run |
| `TestRuns.TestRunKeeps` | src/ltf_test.c:176-250 | one test keeps the run consistent and leaves no verdict open |
| `TestRuns.TestsRunIs` | src/ltf_test.c:176-250 | any number of tests: one record for each, in order, with the verdict of its test, a consistent run, and the passed counter equal to the number of tests that do not fail |
| `TestRuns.RecordsAre` | src/ltf_test.c:176-250 | over any number of tests every record is the whole final record of its test in the state the tests before it have left: reasons, outputs, teardown lists, times, tags and keywords |
| `TestRuns.RunOutcome` | src/ltf_test.c:161-257 | a run is cut short if and only if a run-start hook after the first logs a line; otherwise every test has its whole record and its verdict, FAILED ones have reasons, the counters add up, and the exit code is success if and only if no test is FAILED |
| `TestRuns.SecondHookEndsRun` | src/ltf_state.c:402-407 | such a run: a second run-start hook that logs one line |
| `TestRecords.RunHookDefers` | src/ltf_test.c:161-257 | defers of run-start hooks wait for the first test, and those of run-end hooks are never run |
| `TestRecords.RunEndsEarly` | src/ltf_state.c:402-407 | a run is cut short if and only if the run-start hooks behind the first log a line |
| `TestRuns.LateHooksCount` | src/ltf_hooks.c:287-317 | the lines of test-start hooks after the first come before the body's in the test's outputs, which are the body's own if and only if there are none; a body that returns without error lines is FAILED if and only if one of them is an error line |
| `TestRuns.SecondHookFailsTest` | src/ltf_hooks.c:291-314 | such a test: a silent first hook, a second one with an error line, an empty body |
| `TestRuns.StatusIsVerdict` | src/ltf_test.c:111-119 | every defer a test executes gets its own arguments if it has any, and otherwise one text, which agrees with the verdict in the test's record if and only if the test is not failed by error lines alone |
| `TestRuns.ErrorLineTellsPassed` | src/ltf_test.c:244-244 | such a test: one error line, one defer, a body that returns; the record is FAILED and the defer is told "passed" |
| `Reachable.RunLeads` | src/ltf_test.c:161-257 | the visited states of a run, from its start through every line, defer, stage switch, verdict and teardown step, lead to its end, each a single step from the one before, and are all consistent |
| `Reachable.EveryState` | src/ltf_state.c:409-587 | in every reachable state of every run passed + failed = finished = the number of tests with a verdict, such a test is FAILED if and only if it has a reason, and only the last test can be without verdict |
| `TestRunner.Runner.Log` | src/ltf_state.c:409-466 | the branches of `ltf_state_log` refine the step and keep the invariant of every state so far |
| `TestRunner.Runner.RunHooks` | src/ltf_hooks.c:287-317 | the hook loop, with the stage set once and dropped after the first hook |
| `TestRunner.Runner.RunDefers` | src/ltf_test.c:94-142 | the loop from the end of the defer list refines the recursive specification |
| `TestRunner.Runner.Judge` | src/ltf_test.c:230-242 | the verdict step on the fields of the run state |
| `TestRunner.Runner.RunAllTests` | src/ltf_test.c:161-257 | the runner goes through exactly the visited states of `Reachable.RunStates`, so every prefix an interrupt leaves is consistent; the result and the exit code are those of `RunOutcome` |
| `LogLevel.LevelRoundTrip` | src/ltf_log_level.c:7-30 | every level's name reads back as that level |
| `LogLevel.NameReads` | src/ltf_log_level.c:17-30 | which level each name and letter is read as, whatever the case, and -1 for anything else |
| `LogLevel.LoweredAt` | src/ltf_log_level.c:17-30 | the case is that of the letters A to Z |
| `Paths.NormalizeCanonical` | src/modules/ssh/ltf-ssh-sftp.c:228-312 | the result is canonical, and exactly the canonical paths are left alone |
| `Paths.NormalizeIdempotent` | src/modules/ssh/ltf-ssh-sftp.c:228-312 | normalising twice is normalising once |
| `Paths.NormalizeJoin` | src/modules/util/util.c:38-128 | normalising a base before joining changes nothing |
| `Paths.NormalizeShrinks` | src/modules/ssh/ltf-ssh-sftp.c:228-312 | the normal form of an absolute path is never longer than the path |
| `Paths.NormalizeUp` | src/modules/util/util.c:104-107 | ".." behind a name takes the name back |
| `Paths.NormalizeParent` | src/modules/ssh/ltf-ssh-sftp.c:266-273 | ".." behind any path cuts its normal form at the last slash, down to the root |
| `Paths.NormalizeName` | src/modules/util/util.c:109-110 | a name behind a path is put behind its normal form with one slash |
| `Paths.NormalizeDot` | src/modules/ssh/ltf-ssh-sftp.c:261-263 | "." behind a path changes nothing |
| `Paths.NormalizeSlash` | src/modules/ssh/ltf-ssh-sftp.c:248-252 | nor does a slash |
| `Paths.NormalizeRoot` | src/modules/ssh/ltf-ssh-sftp.c:228-312 | the root stays the root, with ".." too |
| `PathRewrite.NormalizeInPlace` | src/modules/ssh/ltf-ssh-sftp.c:228-312 | the buffer ends up holding the normal form, with the rewind stack always at the ends of the kept prefixes and the write cursor never past the segment being read; other paths are left alone |
| `PathRewrite.Rewind` | src/modules/ssh/ltf-ssh-sftp.c:266-273 | ".." takes back exactly the last kept segment: the text is cut at its last slash, and the root stays |
| `PathRewrite.NextSegment` | src/modules/ssh/ltf-ssh-sftp.c:250-258 | the cursor loop finds exactly the next segment of the split path |
| `PathRewrite.CollectSegments` | src/modules/util/util.c:85-110 | the pointers kept point at exactly the segments that survive, within the array sized by counting slashes |
| `PathRewrite.MakePathAbsLexical` | src/modules/util/util.c:38-128 | the rebuilt buffer holds the normal form of the path seen from the working directory |
| `PathRewrite.BothWays` | src/modules/util/util.c:65-128 | both implementations give the same string for every absolute path, canonical and no longer than the path |
| `LuaJson.TableIsArray` | src/util/lua.c:5-23 | array-like if and only if all keys are integers and one is positive, and the largest index, in whatever order the keys are visited |
| `LuaJson.LuaToJson` | src/util/lua.c:44-104 | the recursive loops produce an encoding of the value: items by index with null in the holes, members by key |
| `LuaJson.JsonToLua` | src/util/lua.c:106-155 | the loops compute the decoding, nulls leaving no field |
| `LuaJson.ScalarJson` | src/util/lua.c:44-68 | the JSON of everything that is no table |
| `LuaJson.ArrayJson` | src/util/lua.c:70-90 | a table with positive integer keys, or a marked one, becomes an array up to its largest key, the value of key i at place i - 1 and null in the holes |
| `LuaJson.ObjectJson` | src/util/lua.c:84-97 | any other becomes an object with a member for every key |
| `LuaJson.ScalarValue` | src/util/lua.c:106-129 | the value of JSON that is no array and no object |
| `LuaJson.ArrayValue` | src/util/lua.c:131-140 | the item at place i is the value of key i + 1, and null leaves no key |
| `LuaJson.ObjectValue` | src/util/lua.c:142-151 | the member with a name is the value of that key |
| `LuaJson.RoundsToNearest` | src/util/lua.c:121-123 | an integer becomes the nearest multiple of the spacing of the doubles there, the even one of two |
| `LuaJson.SameParts` | src/util/lua.c:78-97 | equal JSON is equal item by item and name by name |
| `LuaJson.ConvertibleIs` | src/util/lua.c:44-104 | everything that is no table can be converted, and every table of such values with positive integer or text keys |
| `LuaJson.UlpIs` | src/util/lua.c:121-123 | no smaller spacing would do |
| `LuaJson.RoundTrip` | src/util/lua.c:44-155 | any nested value comes back equal if and only if its texts have no NUL, its integers are doubles and it holds only data |
| `LuaJson.DoubleExactly` | src/util/lua.c:121-123 | an integer survives the conversion to a double if and only if it is a multiple of the spacing of the doubles there; all up to 2^53 do |
| `LuaJson.InexactInteger` | src/util/lua.c:121-123 | 2^53 + 1 comes back as 2^53 |
| `LuaJson.OrderDoesNotMatter` | src/util/lua.c:78-97 | two visiting orders give the same JSON but for the order of object members; arrays are the same |
| `StateJson.OutputRoundTrip` | src/ltf_state.c:50-75 | a log entry comes back whole, missing texts as missing |
| `StateJson.KeywordsRoundTrip` | src/ltf_state.c:167-223 | keyword trees of any depth and width come back whole |
| `StateJson.TestRoundTrip` | src/ltf_state.c:225-281 | a test comes back but for the status enum and the end of the teardown |
| `StateJson.VarsRoundTrip` | src/ltf_state.c:104-133 | the variables come back in order if and only if their names are distinct |
| `StateJson.CountSurvives` | src/ltf_state.c:314-321 | a counter survives the casts to int and back to size_t if and only if it lies outside the range the sign bit spoils |
| `StateJson.LogRoundTrip` | src/ltf_state.c:285-368 | every persisted field of the log comes back; the total becomes the number of test entries |
| `LogMembers.LogSays` | src/ltf_state.c:285-324 | what the raw log holds under each name: texts, tags, counters as C casts them, variables, and every test |
| `LogMembers.TestSays` | src/ltf_state.c:225-247 | the members of a test by name, each of its four lists in its own |
| `LogMembers.OutputSays` | src/ltf_state.c:50-59 | the members of a log entry, the level by its name |
| `LogMembers.KeywordSays` | src/ltf_state.c:167-205 | the members of a keyword, and of its children at any depth |
| `LogMembers.TotalSays` | src/ltf_state.c:314-315 | "total_amount" holds the total |
| `LogMembers.NothingReads` | src/ltf_state.c:326-368 | what is missing is read as missing, empty or zero |
| `LogMembers.LineReads` | src/ltf_state.c:41-47 | an integer that does not fit an int is read as the nearest one that does |
| `LogMembers.CountReads` | src/ltf_state.c:350-365 | a negative counter is read as a huge one |
| `StateConverters.WriteLog` | src/ltf_state.c:285-324 | the append loops build exactly that JSON, which says everything under the names of `LogMembers.LogSays` |
| `StateConverters.ReadLog` | src/ltf_state.c:326-368 | the loops read exactly that log; anything but an object is refused |
| `StateConverters.KeywordsToArray` | src/ltf_state.c:196-205 | the mutually recursive writers of keyword trees |
| `StateConverters.ArrayToKeywords` | src/ltf_state.c:207-223 | the mutually recursive readers of keyword trees |
| `RunLogs.FinalStored` | src/ltf_state.c:225-247 | every record a test ends with can be stored, if the lines and levels of what the Lua code logs and raises fit the C types |
| `RunLogs.FinishedRunReadsBack` | src/ltf_state.c:350-365 | the log of every run that is not cut short reads back whole, the total included, because by then every test has its entry; the counters read back still add up |
| `SecretsFile.ValueBuffer.Append` | src/ltf_secrets.c:37-53 | the buffer holds what has been appended so far, terminated, shorter than its capacity |
| `SecretsFile.Parser.ReadFile` | src/ltf_secrets.c:101-223 | the line loop with its flag, key and buffer reads exactly what the line-by-line specification says |
| `SecretsFile.GetLine` | src/ltf_secrets.c:110-113 | the next line of the file and where the one after it starts |
| `Secrets.ParsePrinted` | src/ltf_secrets.c:110-223 | any list of secrets in the documented single-line or triple-quoted form, with any blanks around the parts, parses to exactly that list in order |
| `Secrets.MultilineReads` | src/ltf_secrets.c:115-156 | a multiline value keeps empty lines, "=" and newlines at its end |
| `Secrets.AssignmentLine` | src/ltf_secrets.c:158-171 | trimming and splitting at the first "=" give back key and value |
| `Secrets.TrimIs` | src/ltf_secrets.c:17-35 | trimming takes off every character up to the space, at both ends and nowhere else |
| `Secrets.QuotedLineReads` | src/ltf_secrets.c:173-191 | a value between quotes on one line ends at the first closing ones; what follows is ignored |
| `Secrets.OpeningContentReads` | src/ltf_secrets.c:192-206 | what stands behind the opening quotes is the first line of the value |
| `Secrets.ClosingContentReads` | src/ltf_secrets.c:137-150 | closing quotes behind content end the value with that content |
| `Secrets.ClosingIndentReads` | src/ltf_secrets.c:121-135 | behind spaces, tabs and the like they end it without its last newline |
| `Secrets.OpenValueReads` | src/ltf_secrets.c:220-225 | a value that is still open at the end of the file ends there, with its last newline |
| `Secrets.NoAssignmentSkipped` | src/ltf_secrets.c:158-165 | a line without "=" is skipped |
| `Secrets.NoKeySkipped` | src/ltf_secrets.c:167-171 | and so is one without a key |
| `Secrets.SmallFile` | src/ltf_secrets.c:110-223 | a file of two secrets, one on its line and one in quotes, as it is written |
| `Pairs.UpsertAllIs` | src/cmd_parser.c:361-376 | updates one after the other: each key where it first came, with the value it had last |
| `Pairs.AddAllMissingIs` | src/cmd_parser.c:423-441 | additions of missing keys: what is there stays, each new key has the value it had first |
| `Pairs.FirstsPush` | src/cmd_parser.c:361-376 | the keys in the order of their first occurrence, one more key at a time |
| `Pairs.UpsertAt` | src/cmd_parser.c:361-376 | one update: the first pair with the key is replaced where it is, or the new one goes to the end |
| `Pairs.LookupAt` | src/ltf_vars.c:108-118 | looking up finds the first pair with the key |
| `CmdVars.TestOptions.SetTestVars` | src/cmd_parser.c:334-382 | one `-v`: split at commas, each pair updated or appended; an error exactly for a piece without "=" or value |
| `CmdVars.TestOptions.SetTestScenario` | src/cmd_parser.c:423-441 | one `-s`: only missing keys are added |
| `CmdVars.TestOptions.ApplyOptions` | src/cmd_parser.c:228-265 | any sequence of them |
| `CmdVars.MergedVars` | src/cmd_parser.c:334-441 | however `-v` and `-s` are mixed, every key is there once, with its last command-line value if it has one and else its first scenario value |
| `CmdVars.OneVar` | src/cmd_parser.c:342-378 | `-v key=value` after any options gives the key that value and changes no other |
| `CmdVars.OneScenario` | src/cmd_parser.c:423-441 | a scenario after any options leaves what is there, and gives every other key its first value |
| `CmdVars.ArgumentForm` | src/cmd_parser.c:342-354 | an argument is refused if and only if one of its pieces is not a key without "=", "=", and a value that is not empty |
| `CmdVars.CommaSeparates` | src/cmd_parser.c:341-378 | `-v a,b` does what `-v a` and then `-v b` do |
| `CmdVars.CheckNeverFires` | src/ltf_vars.c:75-106 | so the check for variables specified more than once reports nothing |
| `Duplicates.FindDuplicates` | src/ltf_vars.c:43-73 | the triple loop records exactly the positions that repeat an earlier key, each once |
| `Duplicates.ReportCount` | src/ltf_secrets.c:285-349 | there are as many reports as keys minus distinct keys |
| `Vars.RegisterVar` | src/modules/ltf/ltf.c:200-245 | one declaration becomes its entry, or is refused if and only if a field has the wrong type or the default is outside a non-empty list of values |
| `Vars.VarRegistry.RegisterVars` | src/modules/ltf/ltf.c:186-256 | a table of declarations is registered as a whole if and only if every key is a string and every declaration is acceptable; otherwise nothing is |
| `Vars.AcceptableIs` | src/modules/ltf/ltf.c:207-245 | which declarations are acceptable: only texts, and a default that is one of the values if there are any |
| `Vars.ParseVars` | src/ltf_vars.c:34-216 | 0 if and only if registered names are distinct, specified names are distinct, no constant is overridden and every other variable has an allowed value or a default; and the final value of each variable |
| `Vars.ValidVarsHaveValues` | src/ltf_vars.c:108-198 | after success every variable has a value, an enum an allowed one, a constant its own |
| `Vars.DeclaredEndsWith` | src/ltf_vars.c:108-190 | from a declaration and what is specified to the final value: a constant its text unless it is specified, any other the specified value if it is allowed, or else its default |
| `Vars.DeclareAndParse` | src/ltf_vars.c:34-216 | declaring a table of variables and validating it, end to end: the final value of each, and 0 if and only if no name is declared or specified twice and every variable has a value |
| `Vars.ParseSecrets` | src/ltf_secrets.c:275-392 | 0 if and only if no name is registered or specified twice and every registered one is specified; and the value of each |
| `Scenarios.RemovalLeaves` | src/ltf_test_scenarios.c:327-376 | removal takes the first occurrences of each key, as many as it is listed, whatever the order of the list, and keeps the rest in order |
| `Scenarios.RedeclarationDiscards` | src/ltf_test_scenarios.c:455-474 | a non-empty redeclaration makes everything before it irrelevant |
| `ScenarioLists.RemovalIs` | src/ltf_test_scenarios.c:327-376 | place by place: an item is kept if and only if as many of its key come before it as are to be removed, and the kept ones stay in order |
| `ScenarioLists.TagsAndOrderAre` | src/ltf_test_scenarios.c:449-474 | tags and order after one more file of the chain: what it asks for instead, or what came before and what it appends without what it removes, each key as often as it was and is appended less the times it is removed |
| `ScenarioLists.VarsAre` | src/ltf_test_scenarios.c:458-466 | the same for variables, by their keys |
| `ScenarioLists.IncludeLeads` | src/ltf_test_scenarios.c:309-325 | the included file is the one of that name with ".json" beside the file that includes it |
| `ScenarioLists.ParentFirst` | src/ltf_test_scenarios.c:420-428 | its changes come first |
| `Scenarios.RemoveFrom` | src/ltf_test_scenarios.c:327-342 | the scan-and-pop loops on the growable array remove the first match of each listed key |
| `Scenarios.MakeChange` | src/ltf_test_scenarios.c:449-474 | append, then remove, then replace, in place |
| `Scenarios.Parser.ParseFile` | src/ltf_test_scenarios.c:404-480 | over a chain of includes tags, variables and order are the left fold from the outermost ancestor to the file; if any file of the chain cannot be read nothing has been merged |
| `Scenarios.ChainIsOne` | src/ltf_test_scenarios.c:420-428 | the chain a file leads to does not depend on the bound used to follow it |
| `Scenarios.IncludesEnd` | src/ltf_test_scenarios.c:420-428 | following includes comes to an end if and only if no path is reached twice, and then within as many steps as there are readable paths |
| `Scenarios.SelfIncludeNeverEnds` | src/ltf_test_scenarios.c:309-325 | a file that includes itself is read for ever |
| `TestRegistry.Registry.Enqueue` | src/test_case.c:23-74 | a test without an active tag is skipped; any other replaces the one of its name in place or is appended |
| `TestRegistry.Registry.EnqueueAll` | src/test_case.c:23-74 | any number of registrations give the updates by name of the accepted ones |
| `TestRegistry.Registry.OrderTests` | src/test_case.c:76-100 | the two loops build the ordered list |
| `TestRegistry.RegistrationsAre` | src/test_case.c:23-74 | after any registrations names are distinct, each at the place of its first accepted one with the definition of its last accepted one |
| `TestRegistry.RegisteredIs` | src/test_case.c:23-74 | a name is registered if and only if some registration of it has an active tag (or none is asked for), with the definition of the last of these |
| `TestRegistry.OrderedIs` | src/test_case.c:76-100 | a non-empty order runs exactly the registered tests it names, in its order, each with its own definition |
| `TestRegistry.OrderedAround` | src/test_case.c:76-100 | name by name: a registered one gives its test, another one nothing |
| `Sftp.SendChunk` | lib/ltf/ssh/sftp.lua:112-122 | whatever parts of a chunk the server takes, the remote file grows by exactly the chunk |
| `Sftp.SendAll` | lib/ltf/ssh/sftp.lua:103-123 | for every chunk size and every pattern of short writes: the remote file is the local one and `total_sent` its size, or the transfer stopped at a chunk with a NUL |
| `Sftp.ArrivingIs` | src/modules/ssh/ltf-ssh-sftp.c:163-172 | everything arrives if and only if the file has no NUL; otherwise the file is cut at the start of the chunk with the first one |
| `Sftp.NulStopsSending` | src/modules/ssh/ltf-ssh-sftp.c:163-172 | of the bytes "a", NUL, "b" the first arrives when they are sent one by one, and nothing when they are one chunk |
| `Sftp.Send` | lib/ltf/ssh/sftp.lua:43-127 | refusals before anything is sent leave the server alone; with a reliable server send succeeds if and only if the file has no NUL; however it ends, the remote file holds a beginning of the local one and no other file is touched |
| `Sftp.OutgoingIs` | lib/ltf/ssh/sftp.lua:49-84 | what is sent for a file, and why nothing is for a missing or empty one, a directory or a dangling link; any other link is what it leads to |
| `Sftp.RefusalIs` | lib/ltf/ssh/sftp.lua:86-102 | a file is refused if the remote one is there and the mode is "create" or none, if the mode is neither "create" nor "overwrite", and if a handle is open, in this order |
| `Sftp.DefaultChunk` | lib/ltf/ssh/sftp.lua:44-44 | without a chunk size pieces of 1024 bytes are sent |
| `Sftp.ReadLocal` | lib/ltf/ssh/sftp.lua:44-84 | the checks on the local file, in their order, and its bytes |
| `Sftp.ResolveIsIgnored` | lib/ltf/ssh/sftp.lua:45-45 | every value of `resolve_symlinks` gives the same; the option is honoured if and only if it is not false or the path is no link that leads somewhere, and that shows if and only if the link leads to a directory or an empty file |
| `Sftp.FalseIsIgnored` | lib/ltf/ssh/sftp.lua:45-45 | such links: to a directory, and to a file |
| `Sftp.SendNul` | lib/ltf/ssh/sftp.lua:110-127 | sending those bytes to a reliable server leaves an empty file and an open handle, and the next transfer is refused |
| `Sftp.Receive` | lib/ltf/ssh/sftp.lua:131-158 | nothing happens when the local file cannot be opened; otherwise, under every pattern of short reads, it becomes the remote file, and a failed transfer leaves a prefix |
| `Sftp.SendAndReceive` | lib/ltf/ssh/sftp.lua:43-158 | a file that was sent comes back as it was |

## Left out

- Allocation failure, `free`, string ownership and the overflow of `size_t` capacities.
- Lua itself, json-c's text form, libssh2, libcurl, serial ports, processes, the terminal UI, log files,
  directory walking and project files; HTTP, WebDriver and SSH session handling.
- C texts hold no NUL, and a `.secrets` file holds none.
- StateConverters.ReadLog: is exact for logs the program writes; a member of an unexpected JSON type is
  read as if it were missing, where json-c would convert it.
- Scenario tags, target, log level and flags on the command line, and a file's own flags: single
  branches. A scenario file is given as already read, or as unreadable.
- LuaJson.LuaToJson: does not cover tables that mix text and integer keys or have integer keys below 1,
  where `lua_tostring` changes a number key under `lua_next`, which Lua leaves undefined, or where
  json-c gets a negative index; nor keys above 2^31, the array mark on text keys, and infinite floats.
- LuaJson.RoundTrip: is about the same values.
- Keyword names, clock texts and tracebacks are arbitrary; how a file and line are read out of a
  traceback is not modelled, nor is the Lua stack in `run_deferred`. Arguments of a defer are not nil.
- Vars.VarRegistry.RegisterVars: takes a number key as no string; the program lets it pass and then
  changes it in place under `lua_next`, which Lua leaves undefined.
- The header, tests and outputs that `ltf logs info` prints around the keyword tree; a missing text
  in the tree prints as `(null)`, as glibc does, and the truncation of a declaration counts characters.
- `join_abs_lexical` and the remote working directory.
- An interrupt is modelled by the states it can leave (`Reachable.EveryState`), not by its handler.
- Sftp.Send: does not cover a chunk size of 0, with which the loop does not end, or of 2^31 and more,
  which does not fit the binding's `int`; the server's own errors are arbitrary, and remote links and
  directories are not modelled.
- KeywordStatus.Recorder.CallHook: a pointer is modelled by the array it points into, the index and
  the buffer's capacity at the time; what a write through a stale pointer does is not modelled, only
  that it happens.
- Memory sharing between a scenario's variables and the command line's.
