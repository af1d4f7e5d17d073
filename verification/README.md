# Slurm monitor: a verified model

slurm-monitor shows a user's Slurm jobs in a terminal. An agent on the cluster answers requests over
one pipe; the client keeps the connection alive, folds array tasks into rows, and lets the user
cancel what the table shows. This project models the parts where those layers must agree.

| module | models |
|---|---|
| `Text`, `Sorting`, `Wrappers` | Python's string and integer primitives on ASCII text; filters and the stable sort |
| `TaskRanges`, `RangeTexts` | range texts such as `1-3,7,9-21:4%2` and slurmdbd's hex bitmask |
| `Jobs` | job summaries, their states, and the normalization of the array fields |
| `Arrays`, `ArrayLaws`, `TaskForms` | the collapse of array tasks into rows, and the cancel check |
| `Queries` | the windowed history list and the order of the active list |
| `Stdio` | file-name pattern expansion |
| `Tables`, `RowKeys` | the two tables and their row keys |
| `Agent`, `Transport`, `TransportProgress`, `Remote`, `Faults` | the agent's serve loop, request correlation over one pipe, what its parties can always do, both together, and both together when anything may break |
| `Session`, `SessionProgress` | the connection states, the reconnect loop and transport ownership |
| `App`, `History` | the Active tab (refresh, freeze, cancel, handoff) and the History tab's windows |

Loops and objects that change in place are methods and classes here, each proved equal to a function
of the old state; what the code promises is then proved about that function. The concurrent parts
(`Transport`, `Remote`, `Faults`, `Session`, `App`, `History`) are state machines whose steps are the code
between two awaits, and their theorems hold over every run. Inputs from outside are parameters: the
Slurm loaders, the dispatcher, the clocks, how a connection attempt ends, what the user presses.

## Where the code falls short of what it says

Where an entry starts with members, those state the exact condition under which the code does meet
the property.

- `Session.GivenUpForeverIff`: a session that gave up (AUTH_REQUIRED, or DISCONNECTED after a
  permanent error) stays so until the user acts iff no request is still in flight or it was stopped;
  otherwise that request's link error restarts the retries (`src/slurm_monitor/session.py:176-182`).
  `Session.GivenUpUndoneReached` gets there from a fresh session.
- `Session.PermanentReturnSafeIff`: a request that ends the session keeps it safe, whatever tame
  events follow, iff no reconnect loop is alive and it returns outside a `reconnect_now`, or into one
  that still waits for its cancelled loop when no other request is in flight. Otherwise a loop runs
  on, or is started, under a DISCONNECTED or AUTH_REQUIRED state, or is left running beside a
  connection (`src/slurm_monitor/session.py:214-255`). `Session.EndsBesideLoopReached` and
  `Session.EndsBesideRetryReached` get there from a fresh session.
- `Session.StartSafeIff`: `start` on an idle session keeps it safe, whatever tame events follow, iff
  it has no loop, no transport and no request in flight. A transport it has is lost unclosed
  (`Session.StartTwiceSafeIff`), and a request left from before a `stop` may start a loop beside the
  attempt (`Session.StartsBesideCallReached`; `src/slurm_monitor/session.py:123-182`).
- `Transport.CrashKeepsAccepting` and `Transport.CrashedLinkHangs`: a reader that dies of an
  unexpected exception records no exit error, so every later request is accepted and waits for its
  timeout (`src/slurm_monitor/transport/subprocess.py:206-209`). `Transport.CrashReached` gets there
  from a fresh transport.
- `TaskForms.EmptyRangeDiffers`: in any snapshot, a live range record without ids keeps its array
  cancellable, the same array as task records (none) does not
  (`src/slurm_monitor/core/arrays.py:227-230`). `TaskForms.EmptyRangeExists` names such a text, `%4`.
- `Queries.ActiveRowsAscend`: the unexpanded rows ascend strictly exactly when no id is wanted by
  two rows.
- `src/slurm_monitor/core/__init__.py:48` calls the history window closed; the code, followed here,
  is half-open.
- `History.AskQueriesIff`: an ask for a history refresh, the handoff's among them, issues a query iff
  none is in flight; otherwise it is dropped (`src/slurm_monitor/tui/app.py:314-315`), and
  `History.AskLost` is a run after which the job it was for does not show. `App.HandoffOnce` is about
  the ask.
- `App.RendersIff`: a snapshot renders iff its ranges parse, no two rows of the unexpanded table want
  one id, and no expanded array lists a task id twice. Otherwise `_render_active` raises, on a clash
  with the table half filled and the displayed ids stale (`src/slurm_monitor/tui/widgets/tables.py:57-64`).
  `RowKeys.KeyClashExists` names such a snapshot, a range "3" beside a record of task 3.
- `src/slurm_monitor/session.py:57-62` tells the user to press `r`; nothing in the package calls
  `reconnect_now`. It is modelled as an operation anyone may call.

## Model

| member | source | states |
|---|---|---|
| `TaskRanges.ExpandTaskRange` | src/slurm_monitor/core/arrays.py:129-157 | the set-filling loop computes the meaning of the text, including every text it rejects |
| `TaskRanges.ExpandOfTerms` | src/slurm_monitor/core/arrays.py:129-157 | any list of ids, ranges and stepped ranges, printed with or without a throttle suffix, parses to the ascending list of its members, and is rejected iff one range descends or one step is zero |
| `RangeTexts.ExpandOfFields` | src/slurm_monitor/core/arrays.py:135-157 | the same for every list of parts however it is spaced and whatever parts are empty |
| `RangeTexts.ForeignRefused` | src/slurm_monitor/core/arrays.py:140-156 | a character that is no digit, sign, underscore, separator or blank, anywhere before the throttle, makes the text an error |
| `RangeTexts.IncompleteRefused` | src/slurm_monitor/core/arrays.py:144-156 | so does a missing bound or step |
| `Text.ParseIntText` | src/slurm_monitor/core/arrays.py:146-156 | int() takes back what str() writes, negative numbers and a plus sign too |
| `RangeTexts.ParsePadded` | src/slurm_monitor/core/arrays.py:146-156 | and a number with blanks around it |
| `Text.ControlsAreSpace` | src/slurm_monitor/core/arrays.py:135-141 | which characters are blanks |
| `Text.ParseHexCaseless` | src/slurm_monitor/core/normalize.py:270 | a mask's digits and prefix count in either case |
| `TaskRanges.TaskRangeFromBitmask` | src/slurm_monitor/core/normalize.py:267-284 | the one-pass printer writes exactly the runs of set bits |
| `TaskRanges.PrintRuns` | src/slurm_monitor/core/normalize.py:272-284 | its start/prev loop closes a run exactly where the next id is missing |
| `TaskRanges.RunsMaximal` | src/slurm_monitor/core/normalize.py:272-284 | the printed ranges cover exactly the ids, ascend, and neighbours have an absent id between them |
| `TaskRanges.RunTexts` | src/slurm_monitor/core/normalize.py:281-283 | a single id stands alone, more are written with a dash |
| `TaskRanges.BitmaskRoundTrip` | src/slurm_monitor/core/normalize.py:267-284 | for every natural number, expanding the printed text gives the sorted positions of its set bits |
| `TaskRanges.HexBitmaskRoundTrip` | src/slurm_monitor/core/normalize.py:267-284 | the same from the text `0x...` on, so all three notations name one set |
| `TaskRanges.NegativeBitmask` | src/slurm_monitor/core/normalize.py:270-271 | a negative mask names the bits below its magnitude's length |
| `Jobs.ArrayFieldsNormal` | src/slurm_monitor/core/normalize.py:287-301 | a normalized record is one task or one non-empty range, never both, and a non-zero bitmask keeps exactly its tasks |
| `TaskForms.TaskReported` | src/slurm_monitor/core/normalize.py:296-301 | with no text waiting the record stands for the reported task, or task 0 when none is reported |
| `TaskForms.RangeReported` | src/slurm_monitor/core/normalize.py:293-298 | a controller's text stands for exactly the tasks it names, whatever task id comes with it |
| `TaskForms.RangeAccepted` | src/slurm_monitor/core/normalize.py:293-298 | such a text is not parsed, and so never refused, here |
| `TaskForms.MaskReported` | src/slurm_monitor/core/normalize.py:293-301 | a mask stands for exactly its set bits, an empty one for no text |
| `TaskForms.PlainReported` | src/slurm_monitor/core/normalize.py:290-292 | without an array id the record is a plain job |
| `TaskForms.MaskAcceptedIff` | src/slurm_monitor/core/normalize.py:294-295 | a text with the prefix is an error iff no hexadecimal number follows |
| `Jobs.StateByWord` | src/slurm_monitor/models.py:50-57 | only the first word of a state counts, whatever blanks are before and text is behind |
| `Jobs.StatesCaseless` | src/slurm_monitor/models.py:50-57 | and its case does not |
| `Jobs.StatesListed` | src/slurm_monitor/models.py:18-47 | on which side each state stands |
| `Jobs.DisplayIdTells` | src/slurm_monitor/models.py:117-125 | two normalized jobs show one id iff they are the same job, task or range of an array |
| `Arrays.CollapseArrays` | src/slurm_monitor/core/arrays.py:160-197 | both loops, with parents filled in place, produce `Collapse` of the snapshot, or raise iff a range does not parse |
| `Arrays.ArrayParent.AddMember` | src/slurm_monitor/core/arrays.py:200-212 | appends exactly the record's tasks and adds their number to its state's count; a bad range changes nothing |
| `Arrays.ArrayParent.AppendSynthetic` | src/slurm_monitor/core/arrays.py:209-212 | appends one synthetic task per id, in order |
| `Arrays.ArrayParent.SortTasks` | src/slurm_monitor/core/arrays.py:191 | the tasks become ascending by id, tasks of one id keep their order, none is lost or added, counts untouched |
| `ArrayLaws.CollapseOrder` | src/slurm_monitor/core/arrays.py:160-197 | the unexpanded rows are the plain jobs and one parent per array id, each where its first record stands, named after that record |
| `ArrayLaws.ParentConserves` | src/slurm_monitor/core/arrays.py:200-212 | a parent's tasks are a stable sort of its array's tasks, each state's count is the number of tasks in it, and the cancel target's task count is the number of tasks |
| `ArrayLaws.CollapseConserves` | src/slurm_monitor/core/arrays.py:160-212 | the same for every parent in every table, whose task rows are exactly its tasks when expanded; erasing task rows gives the unexpanded table |
| `ArrayLaws.TasksFollow` | src/slurm_monitor/core/arrays.py:188-197 | an expanded parent is followed at once by its own tasks |
| `ArrayLaws.TaskRecords` | src/slurm_monitor/core/arrays.py:202-212 | a task row's record is its own record, or a normalized copy of the range record, and shows as the row's key |
| `ArrayLaws.TargetNames` | src/slurm_monitor/core/arrays.py:36-112 | a target addresses its row's ids, names a task iff the row is one, and is labelled by the row's display id |
| `ArrayLaws.HistogramTotal` | src/slurm_monitor/models.py:186-195 | the counts add up to the number of tasks |
| `TaskForms.SplitKeepsRows` | src/slurm_monitor/core/arrays.py:160-212 | replacing a non-empty range record in place by its task records keeps the rows, every histogram and every sorted list of task ids and states |
| `TaskForms.SplitKeepsCancellable` | src/slurm_monitor/core/arrays.py:222-237 | and never changes the cancel check, for task targets or whole-array ones |
| `TaskForms.EmptyRangeDiffers` | src/slurm_monitor/core/arrays.py:227-230 | in any snapshot the two forms agree on the whole array iff the range has an id or is terminal or another record answers for the array |
| `TaskForms.EmptyRangeExists` | src/slurm_monitor/core/normalize.py:287-301 | a text that is only a throttle names no task and passes normalization |
| `Arrays.TargetIsCancellable` | src/slurm_monitor/core/arrays.py:222-237 | the scan with its early returns and the ValueError of a bad range computes `Cancellable` |
| `ArrayLaws.CancellableExact` | src/slurm_monitor/core/arrays.py:222-237 | for every snapshot, parsable or not: the first record that holds the target or cannot tell decides, cancellable or ValueError; none means not cancellable |
| `TaskForms.TaskTargetIffRow` | src/slurm_monitor/core/arrays.py:222-237 | a task target is cancellable iff the fully expanded table has a non-terminal row with its array id and task id |
| `TaskForms.CancellableIffLive` | src/slurm_monitor/core/arrays.py:231-236 | a task target is cancellable iff its array has a live task of that id |
| `TaskForms.WholeTarget` | src/slurm_monitor/core/arrays.py:224-230 | a whole-job target is cancellable iff some live record carries the id as its job or array id |
| `TaskForms.OwnTargetCancellable` | src/slurm_monitor/core/arrays.py:222-237 | on an all-active snapshot every row's own cancel target is cancellable |
| `Queries.HistoryJobs` | src/slurm_monitor/core/queries.py:191-207 | the filtering loop and sort compute `History` of the records, for an explicit or a defaulted end |
| `Queries.HistoryExact` | src/slurm_monitor/core/queries.py:191-207 | the list holds exactly the terminal records of [since, until), each as often as stored, newest first by end time and id |
| `Queries.HistoryConcat` | src/slurm_monitor/core/queries.py:192-205 | for since <= mid <= until the lists of the two adjacent windows concatenate to the list of the whole |
| `Queries.ActiveJobs` | src/slurm_monitor/core/queries.py:161-167 | the list holds exactly the active summaries, each as often as reported, ascending by the three-part key, equal keys as reported |
| `Queries.ActiveExact` | src/slurm_monitor/core/queries.py:165-166 | the same of the function the lemmas below are about, key by key |
| `Queries.ActiveContiguous` | src/slurm_monitor/core/queries.py:166 | an array's records stand together when no plain job shares an id |
| `Queries.ActiveWithinArray` | src/slurm_monitor/core/queries.py:166 | within one array the list ascends by task id, then job id, pending ranges first, with task 0 ordered among them by job id |
| `Queries.ActiveRowsAscend` | src/slurm_monitor/core/queries.py:161-167 | the collapsed unexpanded rows ascend by id, strictly iff no id is wanted by two rows |
| `Stdio.SinglePass` | src/slurm_monitor/core/normalize.py:180-206 | the output is the concatenation of the images of the pattern's own tokens; nothing substituted is expanded again |
| `Stdio.TokensSegment` | src/slurm_monitor/core/normalize.py:35 | every text can be cut into matches of the pattern and single characters |
| `Stdio.SegmentsUnique` | src/slurm_monitor/core/normalize.py:35 | in exactly one way |
| `Stdio.TemplateRoundTrip` | src/slurm_monitor/core/normalize.py:164-206 | a template whose literal parts are escaped expands to those parts with the patterns filled in |
| `Stdio.EscapeRoundTrip` | src/slurm_monitor/core/normalize.py:164-210 | doubling every % of an absolute path and expanding returns the path |
| `Stdio.EscapeRelative` | src/slurm_monitor/core/normalize.py:207-210 | of a relative path: it comes back under the working directory, behind one slash however many that ends in, or as it is without one |
| `Stdio.ResultIsAbsolute` | src/slurm_monitor/core/normalize.py:177-210 | under an absolute working directory every result is absolute, and there is one iff there is a pattern |
| `Stdio.DefaultTaskPath` | src/slurm_monitor/core/normalize.py:28-210 | an array task's default output is `<directory>/slurm-<display id>.out` |
| `Stdio.DefaultJobPath` | src/slurm_monitor/core/normalize.py:28-210 | and so is a plain job's |
| `Stdio.NumberCodes` | src/slurm_monitor/core/normalize.py:185-200 | what %j %J %A %a %n %t expand to, with and without an array |
| `Stdio.NameCodes` | src/slurm_monitor/core/normalize.py:192-204 | an unknown user, name or node leaves its code as it stands, a known one comes as it is unless it is a number with a width |
| `Stdio.FixedCodes` | src/slurm_monitor/core/normalize.py:183-204 | %s and %% at any width |
| `Stdio.DefaultTaskName` | src/slurm_monitor/core/normalize.py:28-29 | the default output name of an array task is `slurm-<display id>.out` |
| `Stdio.DefaultJobName` | src/slurm_monitor/core/normalize.py:28-29 | and so is that of a plain job |
| `Stdio.PaddingKeepsNumber` | src/slurm_monitor/core/normalize.py:204 | a width pads a number to max(width, digits) characters and keeps its value |
| `Tables.TriesBounded` | src/slurm_monitor/tui/widgets/tables.py:118-126 | pigeonhole: only as many candidates can be taken as keys exist |
| `Tables.HistoryTable.FreeKey` | src/slurm_monitor/tui/widgets/tables.py:123-126 | the renaming loop ends within (keys so far + 1) tries at the first free candidate |
| `Tables.HistoryTable.RenderJobs` | src/slurm_monitor/tui/widgets/tables.py:118-140 | the dictionary's values in insertion order are exactly the jobs, under first-free keys |
| `Tables.KeysDistinct` | src/slurm_monitor/tui/widgets/tables.py:118-127 | those keys are pairwise distinct |
| `Tables.KeysDetermined` | src/slurm_monitor/tui/widgets/tables.py:118-127 | and determined by the display ids alone, so a job keeps its key while the jobs before it stay |
| `Tables.SecondCopy` | src/slurm_monitor/tui/widgets/tables.py:123-126 | the second record of a display id is numbered 2 |
| `Tables.ActiveTable.RenderRows` | src/slurm_monitor/tui/widgets/tables.py:57-64 | the table and its dictionary hold what `Place` says: all rows, or those before the first repeated key, whose row takes over the key |
| `RowKeys.PlaceWhole` | src/slurm_monitor/tui/widgets/tables.py:57-64 | all rows are placed iff their keys are distinct, and what is placed are given rows under distinct keys |
| `RowKeys.PlacedPrefix` | src/slurm_monitor/tui/widgets/tables.py:57-64 | otherwise the rows before the first repeated key stay in order, and that key stands for the repeating row |
| `RowKeys.SameKey` | src/slurm_monitor/core/arrays.py:32-81 | two rows share a key iff they are one array's rows of one task id, or two other rows of one id |
| `RowKeys.KeysDistinctIff` | src/slurm_monitor/core/arrays.py:160-197 | a collapsed table has distinct keys iff no two unexpanded rows want one id and no expanded array lists a task id twice |
| `RowKeys.KeyClashExists` | src/slurm_monitor/core/arrays.py:200-212 | a normalized snapshot that renders folded but not opened |
| `Agent.Serve` | src/slurm_monitor/agent.py:73-117 | the handshake frame first, then one frame per non-blank line in order, holding the answer to that line; one error frame and exit code 1 when the handshake raises |
| `Agent.ServedIds` | src/slurm_monitor/agent.py:90-117 | each frame carries the id of its own line; one for a line that does not decode is bad_request with -1 |
| `Agent.NonBlankSelects` | src/slurm_monitor/agent.py:93-94 | the lines that are answered are exactly those that are not blank, in order |
| `Agent.AnswerFrame` | src/slurm_monitor/agent.py:108-117 | what a result, a CoreError with or without data, and any other exception look like on the wire |
| `Agent.VersionsAgreeIff` | src/slurm_monitor/models.py:223-227 | two versions agree iff their first two components do, whatever patch follows |
| `Agent.HelloFrameTells` | src/slurm_monitor/agent.py:75-81 | the first frame has id 0 and determines the handshake the client checks |
| `Agent.RefusalNames` | src/slurm_monitor/agent.py:42-49 | a refusal is made iff the versions disagree, and names both and the remedy |
| `Agent.RefusesAll` | src/slurm_monitor/agent.py:82-106 | an agent whose versions disagree dispatches nothing and refuses every request with version_mismatch and both versions |
| `Transport.InvRun` | src/slurm_monitor/transport/subprocess.py:129-320 | over every interleaving of requests, frames, timers, EOF, reader crashes and closes: every caller still waiting is in the table under its own id, and a caller was told what its own future was set to |
| `Transport.SettledOnce` | src/slurm_monitor/transport/subprocess.py:193-202 | ids are never reused, a future is settled at most once, and what a caller was told stands |
| `Transport.OwnAnswerOnly` | src/slurm_monitor/transport/subprocess.py:182-202 | any payload or agent error a caller receives arrived in a frame with its own id |
| `Transport.LateFrameReachesNobody` | src/slurm_monitor/transport/subprocess.py:193-196 | a frame changes no caller and at most its own id's future, and it changes that one iff its caller still waits unanswered |
| `Transport.EofFailsEveryone` | src/slurm_monitor/transport/subprocess.py:211-213 | after EOF every waiter has failed with the classified error, and until the next start every request raises that error at once |
| `Transport.CloseFailsEveryone` | src/slurm_monitor/transport/subprocess.py:259-289 | when the close that tears the process down returns, the table is empty, nobody waits, and requests are refused until the next start |
| `Transport.CrashKeepsAccepting` | src/slurm_monitor/transport/subprocess.py:206-209 | after a reader crash in any reachable state the waiters have failed, and a new request is always accepted and registered |
| `Transport.CrashedLinkHangs` | src/slurm_monitor/transport/subprocess.py:206-209 | such a request is ended only by its own timer, a failed write or a close |
| `Transport.CrashReached` | src/slurm_monitor/transport/subprocess.py:129-209 | such a waiting request is reached from a fresh transport |
| `TransportProgress.SettledCallerReturns` | src/slurm_monitor/transport/subprocess.py:308-317 | a caller whose future is set returns its outcome by its own moves, and nothing else changes |
| `TransportProgress.WaitingCallerTimesOut` | src/slurm_monitor/transport/subprocess.py:314-320 | a waiting caller can always time out and leaves the table |
| `TransportProgress.FailedWriteReturns` | src/slurm_monitor/transport/subprocess.py:308-313 | a failed write ends the request and takes it out of the table |
| `TransportProgress.RequestReturns` | src/slurm_monitor/transport/subprocess.py:182-320 | a request that is written and answered returns the frame's error, else its result, else an empty one |
| `TransportProgress.StartCompletes` | src/slurm_monitor/transport/subprocess.py:129-159 | a transport that is down starts again, with what earlier callers were told intact |
| `TransportProgress.EofCompletes` | src/slurm_monitor/transport/subprocess.py:185-213 | EOF and the exit status end the reader and fail every waiter and later request |
| `TransportProgress.CloseCompletes` | src/slurm_monitor/transport/subprocess.py:259-289 | a close runs to its end from any running state, and every waiter is told |
| `TransportProgress.CancelFailsAtOnce` | src/slurm_monitor/transport/subprocess.py:203-205 | cancelling the reader fails the waiters at once |
| `TransportProgress.OnlyTableFails` | src/slurm_monitor/transport/subprocess.py:253-257 | however the reader or the transport ends, only futures in the table are failed |
| `Transport.SubprocessTransport.Begin` | src/slurm_monitor/transport/subprocess.py:300-310 | raises as `Refuses` says or registers a fresh id and writes a frame with it |
| `Transport.SubprocessTransport.OnFrame` | src/slurm_monitor/transport/subprocess.py:192-202 | one turn of the read loop |
| `Transport.SubprocessTransport.FailPending` | src/slurm_monitor/transport/subprocess.py:253-257 | fails exactly the unsettled futures in the table, then empties it |
| `Transport.SubprocessTransport.Resume` | src/slurm_monitor/transport/subprocess.py:315-320 | the end of a request: the future's outcome, or the timeout branch |
| `Transport.SubprocessTransport.OnExit` | src/slurm_monitor/transport/subprocess.py:211-213 | records the error and fails the table |
| `Transport.SubprocessTransport.OnCrash` | src/slurm_monitor/transport/subprocess.py:206-209 | fails the table and records nothing |
| `Transport.SubprocessTransport.OnCancelled` | src/slurm_monitor/transport/subprocess.py:203-205 | a cancelled reader fails the table only before EOF |
| `Transport.SubprocessTransport.EndClose` | src/slurm_monitor/transport/subprocess.py:268-289 | the last stretch of close |
| `Remote.RemoteAnswers` | src/slurm_monitor/agent.py:88-117 | over every interleaving of any number of requests, the agent and the reader: a call that does not time out gets exactly the answer given to its own method and params, and has it once both pipes are empty |
| `Remote.FlushEmpties` | src/slurm_monitor/agent.py:88-117 | from every reachable state the agent and the reader alone can empty the pipes |
| `Remote.CallReturns` | src/slurm_monitor/transport/subprocess.py:293-320 | from every reachable state every call that has not timed out can be brought to return, and returns the answer to its own request |
| `Remote.CallTimesOut` | src/slurm_monitor/transport/subprocess.py:314-320 | and a waiting one whose time is up returns the timeout |
| `Remote.RemoteIsLocal` | src/slurm_monitor/transport/local.py:51-60 | a compatible agent's answer is the in-process transport's, result or CoreError; only an unexpected exception differs (internal error against propagation) |
| `Remote.ServeGivesAnswers` | src/slurm_monitor/agent.py:88-117 | the serve loop gives the i-th request the i-th answer the composition uses |
| `Remote.SysInvPlay` | src/slurm_monitor/transport/subprocess.py:182-202 | the invariant behind it: frames cross the pipes in request order, each answering the request at its own position |
| `Faults.FaultyAnswers` | src/slurm_monitor/transport/subprocess.py:129-320 | over every run with failed writes, EOF, crashes, closes, cut pipes and restarts: a call ends in a link error or in what an agent of this run answered when it handled this call's own line |
| `Session.SafeRun` | src/slurm_monitor/session.py:123-255 | over every run: at most one loop, alive only while RECONNECTING; DISCONNECTED and AUTH_REQUIRED hold no transport and no loop; CONNECTED holds an open transport with a checked handshake; every other transport made is closed or being started; every loop obeys the backoff law |
| `Session.InvStep` | src/slurm_monitor/session.py:123-255 | each step keeps the invariant behind it |
| `Session.LoopEndsSettled` | src/slurm_monitor/session.py:184-212 | a loop that ends on its own leaves the session CONNECTED, AUTH_REQUIRED or DISCONNECTED |
| `Session.StateSaysWhy` | src/slurm_monitor/session.py:123-255 | in every run the state is AUTH_REQUIRED iff the last event that decided it was an authentication failure, CONNECTED iff a trusted handshake, DISCONNECTED iff a permanent error, a failed start or a stop (or none), RECONNECTING iff a lost link or a retry, CONNECTING iff a start |
| `Session.StoppedStays` | src/slurm_monitor/session.py:137-141 | after stop nothing is connected, retried or made until start, whatever requests are still in flight and whatever reconnects are asked for |
| `SessionProgress.StopHolds` | src/slurm_monitor/session.py:137-141 | from the stop call on, in every run without a start: once idle the session has given up, holds no transport and no loop, and has made nothing since |
| `SessionProgress.StopCompletes` | src/slurm_monitor/session.py:137-172 | a stop runs to its end, disconnected |
| `SessionProgress.StartCompletes` | src/slurm_monitor/session.py:123-158 | a start ends as its attempt did: the transport and its own handshake adopted, or closed, in the state of the error |
| `SessionProgress.RetryBegins` | src/slurm_monitor/session.py:214-220 | reconnect_now reaches its attempt with the loop gone and what was held closed |
| `SessionProgress.RetryCompletes` | src/slurm_monitor/session.py:221-224 | and ends as the attempt did, a link failure leaving a fresh loop |
| `SessionProgress.IdleReconnectingTries` | src/slurm_monitor/session.py:176-194 | in every run an idle session that is reconnecting has a live loop |
| `SessionProgress.LoopTries` | src/slurm_monitor/session.py:184-212 | whose own events end in one more attempt and leave the session as it ended |
| `SessionProgress.WakeAttempts` | src/slurm_monitor/session.py:189-192 | a loop that wakes begins an attempt on a transport of its own |
| `SessionProgress.AttemptEnds` | src/slurm_monitor/session.py:192-194 | a failed one is followed by the next delay, any other by nothing |
| `SessionProgress.LinkFailureRetries` | src/slurm_monitor/session.py:176-182 | a connected session's link failure starts a fresh loop |
| `SessionProgress.CallBegins` | src/slurm_monitor/session.py:228-231 | a request is sent iff the session is connected |
| `SessionProgress.OrdinaryReturn` | src/slurm_monitor/session.py:234-249 | an answer, or an agent's error other than a mismatch, leaves the session as it is |
| `SessionProgress.RetryRefused` | src/slurm_monitor/session.py:216-217 | reconnect_now does nothing on a stopped session |
| `SessionProgress.LoopsRunUnstopped` | src/slurm_monitor/session.py:184-194 | in no reachable state does a loop run on a stopped session |
| `Session.GivenUpStays` | src/slurm_monitor/session.py:196-255 | a session that gave up with no request in flight stays so until the user acts |
| `Session.GivenUpUndone` | src/slurm_monitor/session.py:176-182 | with one in flight, its link failure keeps the session given up iff it was stopped |
| `Session.GivenUpForeverIff` | src/slurm_monitor/session.py:176-255 | so over every unprompted run it stays given up iff no request was in flight or it was stopped |
| `Session.GivenUpUndoneReached` | src/slurm_monitor/session.py:176-255 | two requests in flight undo it from a fresh session |
| `Session.PermanentReturnSafeIff` | src/slurm_monitor/session.py:214-255 | a request that ends the session leaves every tame continuation safe iff no loop is alive and it returns outside a start or reconnect_now, or as the last request into one that waits for its cancelled loop |
| `Session.StartSafeIff` | src/slurm_monitor/session.py:123-182 | starting an idle session leaves every tame continuation safe iff it has no loop, no transport and no request in flight |
| `Session.TameExact` | src/slurm_monitor/session.py:123-255 | what SafeRun assumes of the caller is the weakest assumption: an event keeps every tame continuation safe iff it is tame |
| `Session.EndsBesideLoopReached` | src/slurm_monitor/session.py:176-255 | from a fresh session, a request told to give up leaves a live loop behind |
| `Session.EndsBesideRetryReached` | src/slurm_monitor/session.py:214-255 | from a fresh session, one that returns into reconnect_now is safe at once and unsafe later |
| `Session.StartsBesideCallReached` | src/slurm_monitor/session.py:123-182 | from a fresh session, stop and start beside a request in flight is unsafe later |
| `Session.StartTwiceSafeIff` | src/slurm_monitor/session.py:123-158 | starting an idle session and connecting is safe iff it held no transport |
| `Session.ClientSession.Connect` | src/slurm_monitor/session.py:143-158 | adopts the transport iff its handshake is trusted, otherwise closes it |
| `Session.ClientSession.TryConnect` | src/slurm_monitor/session.py:196-212 | done iff connected or retrying must stop, with the state each error asks for |
| `Session.ClientSession.FinishStart` | src/slurm_monitor/session.py:123-135 | start after the attempt; raises iff not connected |
| `Session.ClientSession.Stop` | src/slurm_monitor/session.py:137-141 | stop up to the wait for the cancelled loop, or to its end |
| `Session.ClientSession.ReconnectNow` | src/slurm_monitor/session.py:214-220 | refuses when stopped, else cancels the loop, closes and tries |
| `Session.ClientSession.FinishRetry` | src/slurm_monitor/session.py:221-224 | a link failure restarts the loop; the answer is whether it is connected |
| `Session.ClientSession.FinishAttempt` | src/slurm_monitor/session.py:184-194 | the loop after one attempt: end, or sleep the next delay |
| `Session.ClientSession.FinishCall` | src/slurm_monitor/session.py:228-255 | a request's ending, one branch per error kind |
| `App.FrozenStep` | src/slurm_monitor/tui/app.py:457-479 | while the confirmation is open nothing but its answer changes the rows, the pending target or what is expanded or displayed |
| `App.ScreenIsSnapshot` | src/slurm_monitor/tui/app.py:248-301 | over every run, while no render waits for the confirmation: if the latest snapshot renders, the table is its collapse and the displayed ids are its ids; if only its keys clash, the table is as much of it as could be placed |
| `App.RendersIff` | src/slurm_monitor/tui/app.py:278-284 | a snapshot renders iff its ranges parse and no row keys clash |
| `App.RowsWereRendered` | src/slurm_monitor/tui/app.py:248-301 | in every reachable state the rows are those of the last draw and the displayed ids those of the last render that ended, one and the same iff that draw was whole |
| `App.ChosenRowIsLive` | src/slurm_monitor/tui/app.py:457-470 | so every row that the cancel key can pick is cancellable at that moment, if the latest snapshot parses and is normalized |
| `App.ToggleRendersIff` | src/slurm_monitor/tui/app.py:289-301 | folding a shown parent always renders, opening it does iff its array lists no task id twice |
| `App.ToggleShows` | src/slurm_monitor/tui/app.py:289-301 | a toggle that renders shows all of the array's tasks or none and changes no other array's rows |
| `App.ToggleTaskFolds` | src/slurm_monitor/tui/app.py:294-295 | toggling a task row folds its array and no other |
| `App.TogglePlain` | src/slurm_monitor/tui/app.py:290-297 | a plain job or a frozen table does not toggle |
| `App.ToggleTwice` | src/slurm_monitor/tui/app.py:289-301 | toggling the same parent again brings the table back, even if opening it did not render |
| `App.CancelIsChosenRow` | src/slurm_monitor/tui/app.py:457-500 | over every run: a cancel is sent only after a yes, with the ids captured from a shown row when the modal opened, over rows that did not move meanwhile, and only if the latest snapshot holds the target non-terminal |
| `App.OneCancelPerYes` | src/slurm_monitor/tui/app.py:472-500 | cancels sent and still due never exceed the yeses given |
| `App.YesCancelsRow` | src/slurm_monitor/tui/app.py:457-488 | from every reachable state: the cancel key on a shown row, a yes and the worker's turn send exactly that row's target, if the snapshot parses and is normalized |
| `App.AnswerQueues` | src/slurm_monitor/tui/app.py:472-479 | a yes queues the captured target unless the render it waited for fails, a no queues nothing |
| `App.QueuedIsSentIff` | src/slurm_monitor/tui/app.py:481-488 | a queued target is sent iff the snapshot of that moment holds it live |
| `App.SnapshotIsAnswer` | src/slurm_monitor/tui/app.py:248-284 | over every run the snapshot is exactly the active records of the last answer, in order and as often as reported, and when it renders the displayed ids are theirs |
| `App.RefreshRuns` | src/slurm_monitor/tui/app.py:248-273 | a refresh can always begin and end, one at a time, and a failed one changes nothing else |
| `App.RefreshHandsOver` | src/slurm_monitor/tui/app.py:248-276 | after a refresh every displayed id is in the snapshot or handed over, and only new ids are asked for |
| `App.HandoffOnce` | src/slurm_monitor/tui/app.py:248-284 | over every run: a displayed id that disappears has asked for a history refresh since the last render, and asks at most once between two renders |
| `App.SlurmMonitorApp.RenderActive` | src/slurm_monitor/tui/app.py:278-284 | shows the collapse of the snapshot and resets what was handed over; a bad range changes nothing, a repeated key only the rows |
| `App.SlurmMonitorApp.OnActiveJobs` | src/slurm_monitor/tui/app.py:248-276 | a refresh from the answer on; goes on to history iff some id is newly gone |
| `App.SlurmMonitorApp.ToggleExpand` | src/slurm_monitor/tui/app.py:289-301 | expand or fold by row kind, nothing while frozen |
| `App.SlurmMonitorApp.CancelJob` | src/slurm_monitor/tui/app.py:457-470 | captures the target and freezes, nothing while frozen |
| `App.SlurmMonitorApp.ConfirmDone` | src/slurm_monitor/tui/app.py:472-479 | unfreezes, renders what waited, and starts the cancel iff yes |
| `App.SlurmMonitorApp.RunWorker` | src/slurm_monitor/tui/app.py:481-488 | sends iff the target is still cancellable in the latest snapshot |
| `App.TargetOf` | src/slurm_monitor/core/arrays.py:36-112 | a row's cancel target, the histogram summed for a parent |
| `History.ExtensionsTile` | src/slurm_monitor/tui/app.py:312-357 | over every run of refreshes and extensions: the extension list is exactly the store's list for [history_oldest, S), each job as often as stored, disjoint from the default window's; at most floor(366 / window_days) extensions succeed |
| `History.ExtensionBoundReached` | src/slurm_monitor/tui/app.py:333-338 | and that many do succeed in some run |
| `History.DefaultIsLastWindow` | src/slurm_monitor/tui/app.py:312-328 | in every run the default list is exactly the store's list for the window of the last successful refresh |
| `History.RefreshLowersOldest` | src/slurm_monitor/tui/app.py:325-326 | a refresh only ever moves the oldest bound back, whatever the clock does |
| `History.FailureFrees` | src/slurm_monitor/tui/app.py:320-348 | a failed request changes nothing else and frees the way for the next |
| `History.AskQueriesIff` | src/slurm_monitor/tui/app.py:312-318 | an ask for a refresh issues a query iff none is in flight, and otherwise leaves no trace |
| `History.AskLost` | src/slurm_monitor/tui/app.py:272-328 | a run in which the dropped ask's job does not show |
| `History.ShownInOrder` | src/slurm_monitor/tui/app.py:359-370 | in every run the render sort moves nothing: the rows are the default window followed by the extensions in load order |
| `History.ShownSorted` | src/slurm_monitor/tui/app.py:359-370 | whatever the lists hold, all of it is shown, jobs without an end time first by descending id, then newest first |
| `History.HistoryTab.BeginRefresh` | src/slurm_monitor/tui/app.py:312-319 | asks for the window unless a refresh is in flight |
| `History.HistoryTab.FinishRefresh` | src/slurm_monitor/tui/app.py:324-328 | replaces the default window, moves the oldest bound back only, and renders |
| `History.HistoryTab.BeginExtend` | src/slurm_monitor/tui/app.py:333-343 | asks for the preceding window of the same width, within 366 days |
| `History.HistoryTab.FinishExtend` | src/slurm_monitor/tui/app.py:349-351 | appends the answer, moves the oldest bound back, and renders |

## Left out

- pyslurm, ctypes, the Cython extension, process spawning, ssh, stderr and its classification: foreign
  calls; their results are inputs of the steps.
- JSON and pydantic: encoding and decoding are taken as inverse on frames, and a payload is a map of texts.
- Handshake fields, row columns and job fields that only feed the display; counts per state are kept.
- Widgets, cursor, messages, detail and usage panels, help; the tab checks are part of which events occur.
- `last_error`, `last_success`, `degraded` and state callbacks of the session.
- A request cancelled by its own caller midway, a `start` during a `close`, overlapping public session
  calls: outside the assumptions the state machines make.
- Session.SafeRun: assumes `start` first, after `stop` or after a failure with no request in flight,
  and that a request ending the session for good returns neither beside a loop nor into a
  `reconnect_now`, but for the case `Session.PermanentReturnSafeIff` admits. `Session.TameExact` says
  that nothing weaker will do.
- Session closes are one step, and a transport's start ends in a handshake or a TransportError, or,
  when its loop is cancelled, in that cancellation. The source can also swallow the cancellation
  (`src/slurm_monitor/transport/subprocess.py:241-244`), and the loop then goes on.
- The time limit of a request is the moment its wait is cancelled: Python 3.12 does so when the timer
  fires, 3.11 when the caller next runs, and a result that lands before then is received.
- History.ExtensionsTile: the accounting store does not change and the clock does not run backwards.
  No claim is made about the gap between the sliding default window and the extensions, which the
  code does not promise to close.
- Arrays.ArrayParent: the source's parent is also the row in the output list; here the list names the
  parent and the rows are read off it once it is filled, so rows do not alias later parents.
- Blank state texts, on which the source raises IndexError, are neither active nor terminal here.
- Digits and blanks outside ASCII.
- App.ChosenRowIsLive: assumes that the latest snapshot's ranges parse, which nothing in the source
  ensures (controller texts pass normalization as they are, `src/slurm_monitor/core/normalize.py:293-298`),
  and that no record is both a task and a range, which normalization does ensure.
- Where a job's file patterns come from (what Slurm reports, the script, the submit line).
- An exception out of a render is taken to leave the app running; what the framework does with it is
  not part of this model.
- Record and replay, bootstrap, the command line, configuration merging, usage figures and display
  formats: shallow, branch by branch.
