# Valheim server manager: models and proofs

Dafny models of the parts of the manager that keep state or transform data, with proofs of what they promise.
`dafny verify dfyconfig.toml` checks the whole project.

- **Jobs** (`JobProtocol`, `JobInvariants`, `JobForward`, `JobRuns`, `JobVerdicts`, `JobOrder`, `JobMeasure`,
  `JobProgress`, `JobTermination`, `JobRunner`, `StartupRecovery`, `LineWriter`). The runner is a transition system
  with one step per critical section: any number of goroutines enqueue, serve queues, cancel and finish jobs. An
  inductive invariant over queues, workers, phases and slots gives safety in every interleaving; a measure gives
  termination; how a job ends and when it starts is told by the steps of the run. `JobRunner.Runner` is the runner as
  an object whose methods are those steps. `StartupRecovery` runs the recovery of stale rows beside enqueuers and
  workers.
- **Streams** (`LineCut`, `LineBytes`, `LineWriter`, `Tailer`, `TailerRuns`, `LogTail`, `LogSearch`). Chunked,
  backward and windowed readers against cutting the whole text at newlines, and the lines against the bytes they glue
  back to.
- **BepInEx .cfg files** (`CfgLines`, `CfgSyntax`, `CfgScanning`, `CfgSettings`, `CfgFile`, `CfgShapes`,
  `CfgMetadata`, `CfgKeys`, `CfgEditor`, `CfgLaws`, `CfgWriteBack`, `NaturalOrder`, `NaturalText`, `SectionSort`,
  `SortPlaces`, `YamlLocator`). Lossless splitting, the parser, in-place rewriting and its lens laws, natural order
  and the stable sort, and the bounded search for the line of a YAML error. `CfgShapes`, `CfgKeys`, `NaturalText` and
  `SortPlaces` say what the parser, the map keys, the order and the sort do to texts as they are written.
- **Mods** (`Versions`, `VersionText`, `DependencyName`, `Resolver`, `ResolverRequests`, `ResolverPrefixes`,
  `ResolverLaws`, `ResolverText`). The version order, dependency strings, and the breadth-first planner over a
  possibly cyclic index. A plan is specified as the fixed point it is: it answers, in order and once per package, the
  requests that the root and its own steps make.
- **Backups** (`WorldNames`, `SaveTree`, `WorldScan`, `ArchiveNames`, `BackupRoundTrip`, `WorldImport`, `SaveShapes`,
  `WorldShapes`, `EntryShapes`, `Retention`). The save directory is a map from places to bytes, an archive a sequence
  of named entries. Restoring, scanning, importing and retention; the three modules of shapes tell them by how names
  are spelled, for backups, scans and any archive.
- **Events** (`Bus`, `BusTurns`, `BusOvertaking`, `BusRuns`, `BusLoss`, `EventBus`). Publishers share a read lock, so
  each channel operation is a step of its own; `EventBus.EventBus` is the bus as its methods are written, each a run
  of those steps.
- **Login lockout** (`Lockout`, `LoginWindow`, `LoginLocks`). The guard as an object, the window law over all runs of
  the login flow, and whose failures lock whom.
- **Audit diff** (`AuditDiff`). The recursive diff with a patch function as its partner.

`Ascii`, `Decimal`, `DecimalText`, `MapSum` and `Wrappers` hold what several modules share.

Where the code and its text differ, the model follows the code:

- `internal/mods/cfg.go:224` says that of several updates of one key the first wins; the map keeps the last
  (`CfgWriteBack.LastUpdateWins`).
- `internal/backup/service.go:496-500` has backups go when they are older than so many days; the product in
  nanoseconds wraps around beyond 106751 of them, and then backups are removed that should stay
  (`Retention.DaysAreDays`, `Retention.TooManyDaysKeepNone`).
- `internal/backup/worlds.go:18-23` accepts a backslash in a world name and `internal/backup/zip.go:292` skips flat
  files with one, so a restore loses them (`BackupRoundTrip.RestoreGivesBack`, with the exact condition).
- `internal/instance/fs.go:118` promises the last lines of the file; a file ending in two newlines can lose text
  (`LogTail.BlankEndLosesText`, with the exact condition in `LogTail.TailIsExactWhen`).
- An event published while another publisher is mid-send can be given up although it is the newest
  (`BusRuns.TogetherTheyLose`); `BusLoss.GivenUpExactlyWhen` says exactly when.
- `internal/mods/cfg.go:221` joins section and key with a NUL; a section with a NUL in it can be taken for another
  (`CfgKeys.NulClashes`, with the exact condition in `CfgKeys.CombinedMeans`).
- Dotted paths of the audit diff cannot carry keys with dots (`AuditDiff.PatchingNeedsPlainKeys`).
- An edited .cfg value reads back exactly under the condition of `CfgLaws.Faithful`.

## Model

| member | source | states |
|---|---|---|
| JobRunner.Runner.GetQueue | internal/jobs/runner.go:204-213 | gives the queue of an instance; one that was never asked for is entered into the map, empty and idle |
| JobRunner.Runner.Register | internal/jobs/runner.go:268-277 | adds one queued record for the new id and nothing else, as the protocol step of the registering half of Enqueue; keeps the invariant |
| JobRunner.Runner.ScheduleToQueue | internal/jobs/runner.go:289-302 | appends the job at the end of its queue and starts a worker exactly when none serves the queue |
| JobRunner.Runner.TakeNext | internal/jobs/runner.go:304-319 | the worker retires exactly when nothing is pending; otherwise it gets the head and the queue keeps the rest |
| JobRunner.Runner.StillWanted | internal/jobs/runner.go:324-337 | the popped job goes on to wait for a slot unless it was already finished |
| JobRunner.Runner.Acquire | internal/jobs/runner.go:339-346 | takes one slot, within the cap |
| JobRunner.Runner.BeginRun | internal/jobs/runner.go:348-360 | goes to running unless cancelled while waiting; no cancel request can be pending at that point |
| JobRunner.Runner.MarkRunning | internal/jobs/runner.go:463-472 | changes only the status of that job, to running |
| JobRunner.Runner.Decide | internal/jobs/runner.go:379-395 | cancelled exactly if a cancel was requested or the Func gave up, failed exactly if it failed without a request, succeeded exactly if it returned without error and without a request |
| JobRunner.Runner.Settle | internal/jobs/runner.go:475-486 | sets the terminal status and phase of that job only |
| JobRunner.Runner.CloseDone | internal/jobs/runner.go:488 | the done channel had not been closed before |
| JobRunner.Runner.Release | internal/jobs/runner.go:346 | gives back one slot |
| JobRunner.Runner.Cancel | internal/jobs/runner.go:426-443 | by phase: a finished job stays as it is, a running one gets its cancel request recorded and nothing else, a queued one is taken over as done |
| JobRunner.Runner.RemoveFromQueue | internal/jobs/runner.go:450-460 | removes the first occurrence of the id from its queue and nothing else |
| JobRuns.StepInv | internal/jobs/runner.go:243-489 | every step of every goroutine keeps the invariant that ties queues, workers, phases, slots and finishers together |
| JobRuns.Safety | internal/jobs/runner.go:286-396 | in every state of every interleaving: a queue with pending jobs has one live worker, no instance has two, no more slots are held than allowed, no job has two finishers, none is finished or invoked twice |
| JobRuns.Life | internal/jobs/runner.go:323-489 | between any two states of a run a job only moves forward, keeps its terminal status, and is never invoked once cancelled in its queue |
| JobRuns.WaitForSeesFinalState | internal/jobs/runner.go:543-545 | once done is closed the record is terminal and never changes again |
| JobRuns.StartsInOrder | internal/jobs/runner.go:286-319 | jobs of one instance start in the order they were appended |
| JobRuns.NobodyOvertaken | internal/jobs/runner.go:450-460 | when a job has started, every earlier one of its instance has started or was cancelled while queued |
| JobOrder.FirstInFirstOut | internal/jobs/runner.go:286-319 | told by the steps of a run: a job put into its queue before another of the same instance is set running before it, unless it was cancelled while queued |
| JobVerdicts.VerdictStands | internal/jobs/runner.go:379-396 | in every run a job ends as its worker found it: cancelled iff asked for or aborted, failed iff an error and not asked, succeeded iff completed and not asked |
| JobVerdicts.CancelRunningEnds | internal/jobs/runner.go:432-438 | a Cancel that finds the job running before its worker decides ends it as cancelled, whatever the Func returns and whatever else runs |
| JobVerdicts.CancelQueuedEnds | internal/jobs/runner.go:439-446 | a Cancel that finds the job queued keeps its Func from ever being called, and no other end than cancelled is possible |
| JobTermination.StepLowers | internal/jobs/runner.go:289-489 | every step but a registration lowers a measure over threads, jobs and queues, or changes nothing |
| JobTermination.Progress | internal/jobs/runner.go:304-396 | no deadlock: while any goroutine is left one of the runner's own steps is enabled |
| JobTermination.QuietMeansDone | internal/jobs/runner.go:304-489 | a state without own steps has all jobs terminal and announced once, all queues empty and all slots free |
| JobTermination.Termination | internal/jobs/runner.go:289-489 | without new jobs a run is no longer than the measure of its first state, and where it cannot go on every job is finished |
| StartupRecovery.RecoveryIsExact | internal/jobs/store.go:161-202 | in any interleaving with Enqueue and workers, after Start released the lock exactly the queued and running rows of the earlier process are failed; rows of this process change only by their own updates |
| StartupRecovery.OwnRowsUntouched | internal/jobs/runner.go:266-277 | no recovery action touches a row this process inserted |
| StartupRecovery.KeepUnowned | internal/jobs/store.go:186-193 | compacts the slice in place to the rows this process does not own, in order |
| LineWriter.Logger.Write | internal/jobs/logger.go:105-125 | hands on the completed lines of buffer and input and keeps the unfinished rest: old buffer and input are the lines, each with its newline and the carriage return it may have had, and then the buffer |
| LineWriter.Logger.Close | internal/jobs/logger.go:157-168 | flushes a leftover line |
| LineWriter.ChunkingInvisible | internal/jobs/logger.go:102-125 | the lines logged depend on the bytes written, not on how they were cut into writes |
| LineWriter.WritesHaveLines | internal/jobs/logger.go:105-125 | over any writes: the bytes written are the lines handed on, each followed by \n or \r\n and without a carriage return that belongs to it, and then the buffer |
| LineCut.CutAppend | internal/jobs/logger.go:105-125 | cutting in two steps and carrying the rest over is cutting once |
| LineCut.CutGlues | internal/logs/tailer.go:245-276 | the pieces of a cut glue back to the text, so no byte is lost |
| LineCut.CutUnique | internal/logs/tailer.go:245-276 | a text has one cut only into newline-free pieces |
| LineBytes.CutHasLines | internal/logs/tailer.go:245-276 | the lines of a text glue back to it, each with a bare newline or one after a carriage return |
| LineBytes.LinesAreTheCut | internal/logs/tailer.go:245-276 | and no other lines and rest do |
| Tailer.FileTailer.Check | internal/logs/tailer.go:153-241 | one poll: missing, reopened, rotated, truncated or grown file, and what is emitted in each case |
| Tailer.FileTailer.Drain | internal/logs/tailer.go:245-276 | takes in all that is read before the end of the file or a read error: emits the completed lines, keeps the partial one |
| Tailer.BufferBounded | internal/logs/tailer.go:245-265 | for every input the buffer never exceeds maxPartialLine, and never one chunk more while a chunk is taken in |
| Tailer.FeedAllHands | internal/logs/tailer.go:245-265 | however long the lines: the bytes taken in are the lines given out, each with its terminator or cut off beyond 1 MiB, and then the buffer |
| Tailer.FeedAllExact | internal/logs/tailer.go:245-265 | while partial lines fit, chunk boundaries leave no trace in the lines |
| Tailer.Follows | internal/logs/tailer.go:153-276 | however growth is split into checks and reads, lines emitted plus buffer are the bytes from the start offset, cut at newlines |
| Tailer.RestartsFromZero | internal/logs/tailer.go:218-238 | rotation or truncation restarts from the first byte with an empty buffer |
| Tailer.WaitedForStartsAtZero | internal/logs/tailer.go:178-186 | a file that had been missing is read from its first byte, without backlog |
| Tailer.FirstOpenReplays | internal/logs/tailer.go:187-208 | a file there from the start is read from its end, after its last lines have been replayed, each without the carriage return of its terminator |
| TailerRuns.AlwaysAbreast | internal/logs/tailer.go:151-276 | over any sequence of polls, with failed ones, waits, rotations and truncations: the lines emitted are those of the files followed, one after the other and each cut at its own newlines, and the buffer is the rest of the last |
| TailerRuns.LinesByTheBytes | internal/logs/tailer.go:151-276 | the same told by bytes: the text of every file followed is its lines with their terminators, the last one also with the buffer |
| LogTail.TailFile | internal/instance/fs.go:118-158 | the last n lines of the part read backwards; they are those of the whole file exactly when that part reaches back far enough, and always unless the file ends in two newlines |
| LogTail.ReadLastLines | internal/logs/tailer.go:288-326 | the same for the backlog reader, carriage returns removed |
| LogTail.TailIsExactWhen | internal/instance/fs.go:118-158 | a tail of a file has the last n lines of the whole exactly when it reaches back far enough |
| LogTail.LastLinesAreLast | internal/instance/fs.go:118-158 | told by bytes: blank lines at the end aside the file is a head of whole lines and then the n last ones, or fewer if they are all |
| LogTail.LastLinesChomped | internal/logs/tailer.go:288-326 | and for the backlog reader with the carriage returns of terminators taken off |
| LogTail.EnoughRead | internal/instance/fs.go:118-158 | more than n newlines read suffice for every file that does not end in two newlines |
| LogTail.BlankEndLosesText | internal/instance/fs.go:118-158 | for every chunk size of three or more, a file ending in two newlines for which reading stops too early and the last line comes back cut in two |
| LogSearch.SearchLogFiles | internal/instance/fs.go:246-279 | the first limit matches of the concatenation over files of the reversed matching lines; a file that cannot be read is fatal exactly if the search gets to it |
| LogSearch.SearchOneFile | internal/instance/fs.go:284-316 | the newest remaining matches of one file, newest first; the sliding window equals a suffix |
| LogSearch.Reverse | internal/instance/fs.go:311-314 | fills the result back to front |
| LogSearch.LastIsFirst | internal/instance/fs.go:302-314 | reversing a suffix is taking a prefix of the reversal |
| LogSearch.ScanHasLines | internal/instance/fs.go:288-296 | the tokens of the scanner are the lines of the bytes, and a last one without newline unless it is empty |
| LogSearch.ScannableMeans | internal/instance/fs.go:288-296 | a file can be scanned exactly when no 1048576 bytes in a row are without a newline |
| LogSearch.MatchesByPlace | internal/instance/fs.go:294-314 | the matches of a file are its matching lines by their places, all of them, the last one first |
| LogSearch.MatchesByFile | internal/instance/fs.go:246-279 | and those of several files follow one another in the order of the files |
| CfgLines.SplitLines | internal/mods/cfg.go:39-59 | cuts at newlines and gives a carriage return before one to the terminator |
| CfgLines.JoinLines | internal/mods/cfg.go:61-68 | texts and terminators one after another |
| CfgLines.JoinInvertsSplit | internal/mods/cfg.go:39-68 | joining what was split gives back every byte |
| CfgLines.SplitAfterJoin | internal/mods/cfg.go:39-68 | splitting joined lines gives them back, a carriage return before a bare newline moving to the terminator |
| CfgSettings.PrintParses | internal/mods/cfg.go:29-29 | the key/value scanner inverts printing of its parts |
| CfgSettings.SettingPrints | internal/mods/cfg.go:29-29 | the parts of a key/value line glue back to the line and have the shape the pattern demands |
| CfgSettings.RewriteReadsBack | internal/mods/cfg.go:251-260 | a rewritten line keeps kind, key and spacing; leading blanks of the new value join the gap |
| CfgSettings.ValueReadsBack | internal/mods/cfg.go:251-260 | the value written into a line is the value read from it if and only if it does not begin with whitespace |
| CfgEditor.ParseCfg | internal/mods/cfg.go:75-147 | one entry for each setting line, with its header and what the comments directly before it say, then sections stably in natural order |
| CfgMetadata.EntryOfLine | internal/mods/cfg.go:85-141 | the entry of a setting line has the name of the last header before it; its description collects, in order, the ## lines since the last header or setting; of several type, default, values or range comments since then the last counts |
| CfgMetadata.EntriesOfFile | internal/mods/cfg.go:91-144 | there is one entry for each setting line, in the order of the lines |
| CfgFile.NotedOnly | internal/mods/cfg.go:100-125 | a comment is about one topic at most and changes only the field for it |
| CfgShapes.TrimSpaceIs | internal/mods/cfg.go:93-93 | trimming takes the white space around a text and nothing else |
| CfgShapes.HeaderLine | internal/mods/cfg.go:19-19 | a name in brackets, with blanks around them, is a header for the trimmed name |
| CfgShapes.HeaderIs | internal/mods/cfg.go:19-19 | and there are no other headers |
| CfgShapes.CommentLine | internal/mods/cfg.go:100-125 | what begins with # after white space is a comment |
| CfgShapes.SettingLine | internal/mods/cfg.go:126-131 | a key, an equals sign and a value, with any blanks between, are a setting of these parts |
| CfgShapes.RangeNoted | internal/mods/cfg.go:110-113 | a range comment sets the bounds to the words after from and after to, in any letter case and with any blanks |
| CfgShapes.RangeSays | internal/mods/cfg.go:24-24 | and where bounds are read the text has that form |
| CfgShapes.ValuesNoted | internal/mods/cfg.go:114-123 | a values comment lists the trimmed pieces between commas that are not empty |
| CfgEditor.KeepTrimmed | internal/mods/cfg.go:116-122 | the non-empty trimmed items of a list, in order |
| CfgEditor.CheckUpdates | internal/mods/cfg.go:219-235 | the indices of unknown keys in order, and the value each known key ends up with |
| CfgEditor.RewriteLines | internal/mods/cfg.go:240-261 | every line edited by the section it stands in, the others as read |
| CfgEditor.ApplyCfgValues | internal/mods/cfg.go:218-263 | fails with exactly the updates that are for no entry by their section and key, in order, or returns the file with the values written in |
| CfgKeys.CombinedMeans | internal/mods/cfg.go:221-229 | two section and key pairs have the same map key exactly when they are equal or a NUL in one of them shifts the border; the second case needs a NUL in a section |
| CfgLaws.ReadsBackExactlyWhen | internal/mods/cfg.go:218-263 | re-reading after an edit gives the old entries with exactly the new values if and only if each line that takes a value can hold it: no leading whitespace, no line break, no carriage return before a bare newline |
| CfgLaws.BreakIsLost | internal/mods/cfg.go:218-263 | a value with a line break is never read back |
| CfgWriteBack.CleanUpdatesReadBack | internal/mods/cfg.go:213-263 | values without CR, LF and leading whitespace read back in every file |
| CfgWriteBack.LastUpdateWins | internal/mods/cfg.go:224-234 | of several updates of one key the last is written (the comment in the source says the first) |
| CfgWriteBack.FirstUpdateIsLost | internal/mods/cfg.go:224-234 | of any two different values for one key the first is lost |
| CfgWriteBack.EntryTakesItsOwn | internal/mods/cfg.go:218-263 | after a clean edit an entry has changed only if some update names its own section and its own key, and then to the last such value |
| CfgWriteBack.OnlyValuesChange | internal/mods/cfg.go:213-217 | terminators and lines without an update stay byte for byte; in the others only the text after the equals sign and its spacing changes |
| CfgWriteBack.EditIsIdentity | internal/mods/cfg.go:218-263 | an edit with values free of line breaks reproduces the file if and only if it writes what is there |
| CfgWriteBack.WriteBackIsIdentity | internal/mods/cfg.go:218-263 | writing back all current values reproduces the file if and only if no key has two values |
| NaturalOrder.NaturalLess | internal/mods/cfg.go:161-189 | the chunk-by-chunk loop decides the order of the normalised chunk sequences |
| NaturalOrder.NaturalChunk | internal/mods/cfg.go:192-199 | splits off the leading run of digits or of other characters |
| NaturalOrder.RunLessIsValueLess | internal/mods/cfg.go:172-179 | comparing stripped digit runs by length and then by character is comparing their decimal values, of any size |
| NaturalOrder.StrictWeak | internal/mods/cfg.go:161-189 | a strict weak order whose ties are exactly equal chunk sequences |
| NaturalText.SmallerNumberFirst | internal/mods/cfg.go:161-189 | after the same beginning the smaller number comes first, with any zeros in front and whatever follows |
| NaturalText.NumberBeforeText | internal/mods/cfg.go:161-189 | a name that begins with a digit comes before one that does not |
| NaturalText.TextInOrder | internal/mods/cfg.go:161-189 | names without digits compare by character in lower case |
| NaturalText.CaseDoesNotMatter | internal/mods/cfg.go:180-186 | names that differ in letter case only tie |
| SectionSort.SortIsStable | internal/mods/cfg.go:149-157 | the sorted entries are in order and ties keep theirs |
| SectionSort.SectionsKeepFileOrder | internal/mods/cfg.go:149-157 | every section keeps its keys in file order |
| SortPlaces.SortedByPlaces | internal/mods/cfg.go:149-157 | told by places: the result is the entries each once, of two the one with the smaller name first, and of two that tie the one that stood first |
| SectionSort.AnyStableSort | internal/mods/cfg.go:153-157 | whatever sort.SliceStable does, an ordered and stable arrangement is this one |
| SectionSort.SortMapped | internal/mods/cfg.go:145-157 | changing values while keeping section names commutes with the sort |
| SectionSort.SortInjective | internal/mods/cfg.go:145-157 | entries with the same section names that sort alike are alike |
| YamlLocator.Locate | internal/mods/cfg.go:316-362 | the reported line L: the first L-1 lines parse and the first L do not, whenever the empty text parses and the whole does not. It is the last of one to three such boundaries; from each to the next the search jumps to the first of the 20 prefixes ahead that parses, and where it stops before three none of them does. At most 3*ceil(log2(lines)) + 40 parses; texts beyond 256 KiB keep the parser's position |
| YamlLocator.Bisect | internal/mods/cfg.go:335-346 | keeps a parsing lower and a failing upper end, within ceil(log2(width)) parses |
| YamlLocator.LookAhead | internal/mods/cfg.go:350-356 | the first of the next prefixes that parses, or none does |
| YamlLocator.LineEnds | internal/mods/cfg.go:325-333 | the offsets after each line |
| YamlLocator.FirstLinesCut | internal/mods/cfg.go:323-335 | cutting the first n lines again gives the first n lines |
| YamlLocator.CeilLog2Is | internal/mods/cfg.go:338-346 | the bound is the least exponent whose power of two reaches the number of lines |
| YamlLocator.BoundaryIsFirst | internal/mods/cfg.go:301-311 | for a parser that fails for good there is one boundary only, the first failing line |
| Versions.CompareVersions | internal/mods/resolver.go:34-57 | the sign says which version has the smaller number at the first part where they differ, missing parts being 0 |
| Versions.NumericPrefixOf | internal/mods/resolver.go:59-72 | the leading number of a part, 0 if there is none or it overflows |
| VersionText.PartIsItsNumber | internal/mods/resolver.go:59-72 | a part that is a printed number, zeros before and text after, counts as that number up to the largest int and as 0 beyond |
| VersionText.PartWithoutNumber | internal/mods/resolver.go:59-72 | a part that begins with anything else counts as 0 |
| VersionText.ComparesNumbers | internal/mods/resolver.go:29-57 | versions printed from numbers compare as the numbers do, lexicographically, missing ones being 0 |
| Versions.CompareMeans | internal/mods/resolver.go:29-57 | negative, zero and positive mean older, same and newer |
| Versions.OlderTransitive | internal/mods/resolver.go:29-57 | a total preorder: antisymmetric in sign and transitive |
| Versions.PaddingIsSame | internal/mods/resolver.go:29-57 | trailing parts worth 0 do not matter |
| Versions.LatestAcross | internal/mods/registries.go:71-82 | none exactly if no registry lists a version of the package; else the first listed version of a registry such that no other registry has a newer one and every earlier registry an older one |
| Versions.FindVersion | internal/mods/registries.go:86-93 | the first registry with exactly that version |
| DependencyName.ParsesExactlyPrinted | internal/mods/resolver.go:13-27 | a dependency string parses to a name if and only if it is the printed form of that name: owner without hyphen, version without hyphen, name of any kind |
| ResolverText.ReadAsNamed | internal/mods/resolver.go:13-27 | a dependency string is read as a request if and only if it is owner, name and version between hyphens: owner without hyphen, name without newline, version of a digit and then word characters and dots |
| Resolver.ResolvePlan | internal/mods/resolver.go:96-166 | terminates on every index; success yields a plan that answers its own requests and says whether the loader was asked for, failure a wanted request that cannot be answered and why |
| Resolver.MakeStep | internal/mods/resolver.go:118-154 | the chosen version and the installed state, or the reason there is none |
| Resolver.QueueDeps | internal/mods/resolver.go:157-163 | the parsed dependencies in order, or one that does not parse |
| ResolverLaws.NoRepeats | internal/mods/resolver.go:99-116 | no package is planned twice and the loader never |
| ResolverLaws.PlanIsClosed | internal/mods/resolver.go:157-163 | every dependency of a chosen version is planned, the loader aside |
| ResolverText.DependenciesArePlanned | internal/mods/resolver.go:157-163 | every dependency string of a planned version is owner, name and version between hyphens, and that package is planned, the loader aside |
| ResolverText.StepsAreAskedFor | internal/mods/resolver.go:118-146 | every step is for the root or for a dependency string of an earlier step, with the version it names, or the one listed first if none is named, and the dependencies of the first listing of that version |
| ResolverText.LoaderIsNeeded | internal/mods/resolver.go:103-108 | the loader is needed exactly when it is the root or a step has a dependency string for it |
| ResolverText.FailuresAreTrue | internal/mods/resolver.go:118-163 | a failure is true of the index: no such package, no such version, or a dependency string of the chosen version that names nothing |
| ResolverLaws.PlanHasRoot | internal/mods/resolver.go:103-116 | the root comes first unless it is the loader |
| ResolverLaws.PlanIsReachable | internal/mods/resolver.go:104-164 | the plan lists exactly the packages reachable from the root over chosen versions; the loader is needed exactly when reachable |
| ResolverLaws.DepthsInOrder | internal/mods/resolver.go:103-164 | steps come in non-decreasing depth |
| ResolverLaws.DepthIsReached | internal/mods/resolver.go:103-164 | a package is reachable over as many dependencies as its depth |
| ResolverLaws.DepthIsLeast | internal/mods/resolver.go:103-164 | and over no fewer |
| ResolverLaws.InstalledDecides | internal/mods/resolver.go:147-154 | a step is left alone, upgraded or new as the installed version is not older, older or absent |
| ResolverLaws.PlanIsUnique | internal/mods/resolver.go:96-166 | there is at most one plan |
| ResolverLaws.StuckMeansNoPlan | internal/mods/resolver.go:118-163 | when the walk fails there is no plan at all |
| SaveTree.SaveDir.WriteBackupZip | internal/backup/zip.go:56-117 | the existing files of the world and the player lists in copy order, then the manifest |
| SaveTree.WorldZipSteps | internal/backup/zip.go:127-147 | the legacy files in their order, then the allowed files of the directory |
| SaveTree.ZipWorldName | internal/backup/zip.go:317-346 | the first world a manifest names, else the first .db stem, else the first directory with a .db2 |
| WorldShapes.NamedByEntries | internal/backup/zip.go:317-346 | without a manifest that names a world the first flat database names it by its stem, and if there is none the first _main.N.db2 of a directory |
| SaveTree.CheckArchiveBudget | internal/backup/zip.go:385-394 | accepts exactly archives within the budget |
| SaveTree.SizesAdd | internal/backup/zip.go:385-394 | the size of an archive is that of its entries together |
| SaveTree.SaveDir.RemoveWorldSave | internal/backup/worlds.go:385-403 | removes the four flat files and the directory of the world and nothing else; says whether there was anything |
| SaveTree.SaveDir.ExtractBackupZip | internal/backup/zip.go:232-311 | refuses with the tree untouched, or deletes the world's save and lays the archive's files down |
| SaveTree.SaveDir.LayEntry | internal/backup/zip.go:259-308 | where one entry goes: list, directory file, flat file, or nowhere |
| ArchiveNames.CarriedTarget | internal/backup/zip.go:127-147 | for every valid world name: the entry name of a carried file leads back to its place, except for flat files of a world with a backslash in its name, which lead nowhere |
| ArchiveNames.BackslashIsLost | internal/backup/zip.go:290-295 | a flat file of a world with a backslash in its name is removed on restoring and its entry skipped |
| BackupRoundTrip.BackupNamesWorld | internal/backup/zip.go:317-346 | a backup is recognised as one of its world |
| BackupRoundTrip.RestoreLeaves | internal/backup/zip.go:232-311 | for all trees F and G and every valid world name: restoring F's backup over G gives F's carried files, flat ones with a backslash in the world name excepted, nothing else of the world, and leaves every other file of G as it was; refused exactly when over budget |
| BackupRoundTrip.RestoreGivesBack | internal/backup/zip.go:232-311 | the restored tree holds all carried files, and is otherwise as demanded, if and only if the world name has no backslash or the backup had none of its flat files |
| SaveShapes.AllowedShape | internal/backup/zip.go:149-156 | what a backup carries of a directory: _main.N with one of four extensions and N all digits, or any name in .chunk without slashes |
| SaveShapes.DirectoryAfter | internal/backup/zip.go:232-311 | after restoring, the world's directory holds the main and chunk files of the save backed up, by the shapes of their names, with their bytes, and nothing else |
| SaveShapes.FlatAfter | internal/backup/zip.go:232-311 | of the flat files the four of the world are as backed up, unless a backslash in the name loses them, and all others as before |
| SaveShapes.OthersAfter | internal/backup/zip.go:232-311 | the three player lists come back, and every other file stays as it was |
| EntryShapes.TargetShape | internal/backup/zip.go:259-308 | an entry of any name goes to a place exactly when it is one of the lists, a main or chunk file below the world's directory, or a flat file of the world below worlds_local |
| EntryShapes.AnyArchive | internal/backup/zip.go:232-311 | restoring any archive: a place with entries gets the bytes of the last one, the rest of the world goes, all else stays |
| EntryShapes.NothingElsewhere | internal/backup/zip.go:232-311 | whatever the archive holds, no file outside the world and the lists is touched |
| BackupRoundTrip.ScanAfterRestore | internal/backup/worldfiles.go:66-208 | for every valid world name: a scan then reports F's generation and flags, even if G held a higher generation, if and only if the legacy flags agree: the plain file was put back, or odd-case files make up for it |
| BackupRoundTrip.OddCaseInterferes | internal/backup/worldfiles.go:117-135 | for every world: an empty save restored where a .DB file lies is reported to have a database |
| WorldScan.ScanWorldDir | internal/backup/worldfiles.go:142-195 | nothing without a main file; else the highest committed generation above 0 and what it has |
| WorldScan.Highest | internal/backup/worldfiles.go:189-194 | the maximum does not depend on the order of the map |
| WorldScan.ScanWorlds | internal/backup/worldfiles.go:66-138 | for every name exactly what the listing says of it, in either layout; listed are exactly the worlds with a legacy file or a main file |
| WorldScan.ScanWorld | internal/backup/worldfiles.go:199-208 | the description of one world of the tree |
| WorldScan.OneDescription | internal/backup/worldfiles.go:142-195 | a directory has one description |
| WorldShapes.GenerationByShape | internal/backup/worldfiles.go:142-195 | the generation is the highest number above 0 of a _main.N.ok file, its flags those of the db2 and fwl2 files of that number, zeros in front or not |
| WorldShapes.LayoutsByShape | internal/backup/worldfiles.go:98-138 | a world has a directory layout when its directory has a main file, a legacy half under any letter case of the extension, and none of the rolling copies is a world |
| WorldImport.StageZip | internal/backup/zip.go:417-540 | the one world of an archive, or which of the refusals applies |
| WorldImport.IsCommitted | internal/backup/zip.go:527-536 | some generation has data, metadata and marker, numbers beyond an int counting as its maximum |
| WorldShapes.DirEntryRole | internal/backup/zip.go:447-476 | a main or chunk file below a world's directory is staged as its file, with worlds_local before it or not |
| WorldShapes.CommittedByShape | internal/backup/zip.go:527-536 | an import asks for a number that has its ok, db2 and fwl2 files, zeros in front or not, and numbers beyond an int all counting as the largest |
| EntryShapes.HalfHasShape | internal/backup/zip.go:493-510 | what is staged as half a world is a file with its extension in any letter case, directly in worlds_local or at the top |
| EntryShapes.InWorldHasShape | internal/backup/zip.go:464-476 | what is staged as a file of a world is a main or chunk file directly below a directory of that name |
| WorldImport.ImportWorld | internal/backup/worlds.go:223-271 | refuses an invalid or existing name without overwrite; else replaces what a scan had found |
| WorldImport.ExportIsStaged | internal/backup/zip.go:515-556 | what import makes of an export, for every valid world name and case by case: whole single-layout worlds are taken, migrated ones refused, flat files with a backslash skipped |
| WorldImport.ExportImportLeaves | internal/backup/worlds.go:223-271 | an accepted export imported into any tree brings the files that are not skipped, removes the rest of the world if a scan had found it, and leaves all else |
| WorldImport.ExportImportRoundTrip | internal/backup/worlds.go:223-271 | an accepted export brings every file of the world into every tree if and only if the world name has no backslash or the world had no flat files |
| WorldShapes.ExportImportByShape | internal/backup/worlds.go:223-271 | exporting and importing told by the shapes of names: what arrives, what goes and what stays, file by file |
| Retention.BackupStore.ApplyRetention | internal/backup/service.go:501-538 | removes exactly the files of expired automatic backups that can be removed and then their rows that can; when nothing fails the rows left are those to keep, and no backup to keep loses its file |
| Retention.RemovalIsKept | internal/backup/service.go:516-536 | row by row removal leaves what the specification keeps |
| Retention.OthersStay | internal/backup/service.go:507-512 | manual and uploaded backups all stay |
| Retention.StaysExactlyWhen | internal/backup/service.go:501-538 | a row stays exactly when the backup was made by hand or uploaded, or it is among the newest automatic ones kept and not too old, 0 disabling a limit; up to 106751 days |
| Retention.GoneExactlyWhen | internal/backup/service.go:526-536 | when removals fail: a file goes if its backup is expired and it can be removed, a row if its file has gone and it can be removed itself |
| Retention.AutosAreThePrefix | internal/backup/service.go:496-526 | the surviving automatic backups are a newest-first prefix of length min(keep last, those young enough), 0 disabling a limit |
| Retention.AgainChangesNothing | internal/backup/service.go:501-538 | running retention again at the same instant changes nothing |
| Retention.DaysAreDays | internal/backup/service.go:521-521 | retention keeps the backups it should, whatever the rows and the time, if and only if the limit is at most 106751 days |
| Retention.ManyDays | internal/backup/service.go:521-521 | beyond that, a backup exactly as old as the limit allows is removed |
| Retention.TooManyDaysKeepNone | internal/backup/service.go:521-521 | from 106752 to 213503 days the product is negative and every automatic backup is removed as soon as it is made |
| Bus.StepKeepsInv | internal/events/bus.go:35-79 | every channel operation of every goroutine keeps buffers bounded, histories consistent and publishers on open channels |
| BusRuns.Safety | internal/events/bus.go:35-79 | in every interleaving: bounded buffers, delivered then buffered is an ordered part of the matching events sent, at most one close, and the newest sent event is delivered or buffered once nobody is mid-send |
| BusRuns.NoSendAfterClose | internal/events/bus.go:45-52 | once a channel is closed no publisher ever stands at it again, nothing is sent on it, and it stays closed |
| BusRuns.SerialLosesNothing | internal/events/bus.go:55-79 | while no two publishers stand at one channel at once, every event matching it is sent in order and none given up, whatever happens on other channels |
| BusRuns.TogetherTheyLose | internal/events/bus.go:65-77 | a run with two publishers in which an event is neither delivered nor buffered |
| BusLoss.GivenUpExactlyWhen | internal/events/bus.go:65-77 | the second attempt after a drop gives the event up if and only if what stood in the buffer, with the sends and less the takes since, is a full buffer; otherwise the event is sent |
| BusLoss.LosesNothingExactlyWhen | internal/events/bus.go:65-77 | a channel has lost nothing if and only if between no drop and the second attempt after it the buffer was filled again |
| EventBus.EventBus.Subscribe | internal/events/bus.go:35-43 | a new id with an empty buffer |
| EventBus.EventBus.Unsubscribe | internal/events/bus.go:45-52 | closes the channel once however often it is called |
| EventBus.EventBus.Publish | internal/events/bus.go:55-79 | every subscriber for all instances, for the event's, or of an event for all gets it last in its buffer, at the cost of the oldest of 256; no other buffer changes |
| EventBus.EventBus.SendTo | internal/events/bus.go:65-77 | the three selects amount to a push that drops the oldest |
| EventBus.EventBus.Receive | internal/events/bus.go:15-22 | takes the oldest buffered event |
| EventBus.NothingIsLost | internal/events/bus.go:55-79 | called one method at a time, the bus sends every matching event |
| Lockout.LoginGuard.Locked | internal/auth/lockout.go:63-76 | answers whether a lock holds and forgets one that ran out |
| Lockout.LoginGuard.RecordFailure | internal/auth/lockout.go:81-90 | sweeps, then counts the failure for the user and for the address |
| Lockout.LoginGuard.Record | internal/auth/lockout.go:92-106 | one more failure for the key, a lock at the limit, an eviction only for a new key on a full table |
| Lockout.LoginGuard.Sweep | internal/auth/lockout.go:110-116 | removes exactly the outdated unlocked entries |
| Lockout.LoginGuard.EvictOldest | internal/auth/lockout.go:118-129 | removes one entry whose last failure is oldest |
| Lockout.LoginGuard.Reset | internal/auth/lockout.go:133-137 | forgets the user |
| LoginWindow.NextInv | internal/auth/service.go:216-245 | every login and password reset keeps the spread of recorded failures and the table bound |
| LoginWindow.LoginsAreRationed | internal/auth/lockout.go:63-129 | in every run with a monotone clock any half-open window of the lockout duration holds at most the permitted failures per user and per address, and the table stays within its bound |
| LoginWindow.Login | internal/auth/service.go:216-245 | the login flow is a step of that system; it refuses exactly when the address or the user is locked, and then records nothing |
| LoginLocks.OwnKeys | internal/auth/lockout.go:48-49 | users share a counter exactly when their names are equal in lower case, addresses when they are equal, and a user never shares one with an address |
| LoginLocks.FailuresLock | internal/auth/lockout.go:63-106 | as many failures as permitted within five minutes mean a lock |
| LoginLocks.LockedByOwnFailures | internal/auth/lockout.go:63-106 | in every run a locked user has five different logins with a wrong password, the last within five minutes |
| LoginLocks.OwnFailuresOnly | internal/auth/service.go:216-245 | only a wrong password for the user enters the user's failures |
| LoginLocks.WrongPasswordCounts | internal/auth/service.go:222-239 | a wrong password that is not refused enters those of the user and of the address |
| LoginLocks.SuccessForgets | internal/auth/service.go:245-245 | an accepted login and a password reset make the user's failures forgotten and no others |
| AuditDiff.WalkDiff | internal/api/auditdiff.go:48-76 | one change for each differing path, with the values on both sides, in any order |
| AuditDiff.EmptyExactlyWhenEqual | internal/api/auditdiff.go:48-76 | no path is reported exactly when the values are equal modulo null members and empty objects |
| AuditDiff.NoNestedPaths | internal/api/auditdiff.go:48-76 | no reported path is a prefix of another |
| AuditDiff.PatchRestores | internal/api/auditdiff.go:48-76 | applying the reported changes turns before into after, modulo null members and empty objects, for keys dotted paths can carry |
| AuditDiff.PlainPatchRestores | internal/api/auditdiff.go:48-76 | in particular for keys that are non-empty and free of dots |
| AuditDiff.PatchesBack | internal/api/auditdiff.go:48-76 | the old values turn after back into before |
| AuditDiff.PatchingNeedsPlainKeys | internal/api/auditdiff.go:48-98 | patching restores every value made of a set of keys if and only if none of them is empty or has a dot |
| AuditDiff.OddKeysCollide | internal/api/auditdiff.go:93-98 | one diff whose two changes have the same dotted path and different values |

## Left out

- JobRuns.Safety: says nothing about Exclusive, which is checked at internal/jobs/runner.go:250-255 outside the insertion at 268-277, so two exclusive enqueues can both pass.
- JobTermination.Termination: counts the return of a Func among the runner's own steps; a Func that never returns is not covered, nor are contexts, deadlines and shutdown.
- JobRuns.WaitForSeesFinalState: covers jobs held by this runner; jobs read from the database are not part of the model.
- JobRunner.Runner.MarkRunning: the row updates of workers and their failures are not modelled beside the record; `StartupRecovery` models the rows.
- LineWriter.Logger.Write: several writers at once, the log file and the published events are left out; a write is one step.
- Tailer.FileTailer.Check: seek and close errors and the Opened callback are left out; failed stat, open and backlog reads are in, and a read error ends a poll like the end of the file.
- LogTail.TailFile: the file does not change while it is read, and read errors are left out.
- LogSearch.SearchLogFiles: the matcher is a parameter, so invalid regular expressions and case folding are left out; a line that does not fit the scanner counts as unreadable.
- TailerRuns.AlwaysAbreast: says what is done with the bytes read; that these are the bytes of a file that only grows is part of `Tailer.Follows`.
- CfgEditor.ParseCfg: characters stand for bytes, and letter case is that of ASCII; the regular expressions are written as scanners.
- NaturalOrder.NaturalLess: lower-casing is that of ASCII letters.
- YamlLocator.Locate: the parser is a function of the text; the wording of the message is left out, and sizes are in characters.
- Versions.LatestAcross: refreshing, caching and locking of registries are left out; names are folded as ASCII.
- Resolver.ResolvePlan: the context, download and icon links are left out; `IndexOk` assumes that the index holds a package under its owner and name (thunderstore.go:310-311 also indexes the full name as given).
- WorldNames.ValidWorldName: takes "/" for invalid, although filepath.Base maps it to itself.
- SaveTree.SaveDir.ExtractBackupZip: input and output errors, empty directories, subdirectories of a world's directory, and a file where a directory should be are left out; files and directories are separate places, and paths never leave the tree.
- SaveTree.SaveDir.WriteBackupZip: compression, temporary files, the size and the manifest's other fields are left out; the manifest is bytes that name the world.
- WorldScan.ScanWorlds: sizes and modification times are left out.
- WorldImport.ImportWorld: the checks on a running active world and the status update are left out.
- WorldImport.StageZip: temporary files and their clean-up are left out.
- Retention.BackupStore.ApplyRetention: the table holds the rows of one instance, newest first as repo.go:105 orders them.
- EventBus.EventBus.Publish: time stamps are left out.
- LoginWindow.LoginsAreRationed: one login at a time, with a clock that does not go back; passwords and sessions are outcomes, and names longer than 32 characters, which are refused before the table is asked, are left out.
- AuditDiff.WalkDiff: sorting and masking of the changes and decoding from JSON are left out.
- Creation of backups, remote copies, game backups and file names of backups: mostly calls into other services, or short printers and parsers.
- The update job of an instance, the agent's chat cursor and the survival log: sequences of calls whose effects lie outside.
- HTTP handlers, sign-in providers, settings, notifications, Steam and Thunderstore downloads, map rendering: input and output around libraries.
