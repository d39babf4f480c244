# Verified model of the cis1 core

This project models the four parts of the cis1 core that keep state across processes and proves what
they promise about it:

- **The build store of a job** (`Builds`, `JobStore`, `BuildLaws`, `BuildRuns`, `BuildRaces`,
  `BuildLimit`): allocating build
  numbers, moving builds from pending to successful or broken, pruning old builds, and rebuilding the
  three maps of a job object from its directory.
- **Session values and parameters** (`ParamCodec`, `SessionStore`, `ParamTransport`): the escaped
  `key=value` files behind `setvalue`, `getvalue`, `setparam` and `getparam`, and the way of a parameter
  from the session through `startjob` and the build directory into the child build.
- **Cron** (`CronText`, `CronCommands`, `CronManager`, `CronTimers`, `CronProtocol`): the crons file, the
  commands that edit it, the merge that reconciles the running timers with it, the timers themselves, and
  the notify protocol between the commands and the daemon.
- **Output framing** (`JobRunner`): cutting the output of a build into lines while it arrives in pieces.

`Text`, `Numbers` and `Errors` hold what these share. `dafny verify dfyconfig.toml` checks everything.

## How the code is represented

- A job directory is a map from entry names to plain files or directories with files. Job objects are
  instances of a class; several may share one `Disk`, each with maps as old as its last load.
- What the operating system refuses is a parameter of each operation (`Faults`, `PrepareFaults`,
  `ExecuteEnv`, `LoadFaults`, `Stuck`, `OutStream`), so contracts cover every error path. The results of
  `list_directory` are taken in any order.
- A `std::map` or `std::set` keyed by strings is written in `std::string` order. `std::set<cron_entry>`
  and the keys of `timers_` are sorted sequences, and an iterator is a position in one.
- A `cron_timer` is known by a serial number. `State` in `CronManager` also holds what Boost.Asio keeps for
  the timers: pending waits, and expired waits whose handlers are queued. Cancelling takes a pending wait
  away and cannot take a queued handler back.
- `CronProtocol` and the runs in `CronTimers`, `BuildRuns`, `BuildLimit` and `BuildRaces` are state machines over
  atomic steps. In `BuildRuns` a `prepare_build` is one step; in `BuildRaces` it is two, finding the number and
  creating the build.
- `std::stoul` is taken with a 64-bit `unsigned long`, as on Linux.
- The escaping and the line reader belong to a library that is not part of the repository. They are
  written out from what `test_package/src/get_value.cpp` and `test_package/src/read_istream_kv_str.cpp`
  show: `\`, `=` and newline are escaped, unknown escapes are errors, a line splits at its first
  unescaped `=`, an empty key is an error, empty lines are skipped. A repeated key keeps its last value,
  and a plain `=` in a value is let through. Those files show that `\r` is stripped from line ends; which
  other blanks are is left open, and every result holds for each set of them (`LineEnds`).
- `async_read_until` is taken by its contract (`JobRunner.ReadUntil`).

## Results that are not plain confirmations

- As long as every prepare finds a six-digit number left, build numbers are never reused exactly when both
  keep counts are at least 1 (`BuildRuns.AscendExactly`).
  A count such as 4294967296 in `job.conf` reads as 0 (`Numbers.PrintedNumber`).
- The maps of a job object stay a partition whatever the keep counts are as long as it works alone
  (`BuildRuns.SoleJobPartition`). With several job objects on one directory they do exactly when both keep
  counts are at least 1 (`BuildRuns.PartitionExactly`). With a count of 0 this input fails: one object
  loads, prepares build n and runs it to the class of which nothing is kept; another loads and cleans up,
  which frees n; new builds take the numbers up to n - 1; the first object prepares again and now has n
  both finished and pending. That is a `startjob` which loaded the job before a maintenance cleanup; the
  insert at the end of `execute` (src/job.cpp:213-222) then drops the build, since its map has n already.
- Between finding a number and creating the build, other processes may take the number and give it up
  again. If no cleanup is due to remove a prepared build whose number another process has just found, numbers
  stay distinct over every interleaving, because copying the script refuses to overwrite; for all such
  careful interleavings this is so exactly when both keep counts are at least 1
  (`BuildRaces.CarefulRacesExactly`). Nothing in the code makes cleanups careful. Without that, numbers stay
  distinct exactly when both keep counts are so large that the six-digit numbers run out before any new
  build can become outdated (`BuildRaces.RacesDistinctExactly`). Otherwise this input fails: one process
  finds number n and is delayed; others build n and as many more of one class as are kept, and clean up;
  the first then creates n again (`BuildRaces.CarelessReuses`).
- Number 1000000 is given out after 999999, but its directory has no build name, so the scan arrives at
  1000000 again (`BuildRuns.NumberAdvancesExactly`). Over runs that may come that far numbers only grow
  exactly when at least two builds of each class are kept (`BuildLimit.AscendAnywayExactly`). With one kept
  this input fails: builds 999999 and 1000000 end in that class and cleanup keeps the second
  (`BuildLimit.BeyondFalls`); if 999999 was the only build before, the numbers start again from 0
  (`BuildRuns.NoRoomRestarts`).
- A fresh load gives the maps in memory over a run of one job object exactly if every step leaves its record
  (`BuildRuns.SoleJobAgreesExactly`). What does not: a `prepare_build` that fails after its directory was
  made, one that gives out 1000000 or more, or one whose script is called `exitcode.txt` and holds a number
  (`BuildLaws.PrepareAgreesExactly`); a build whose script could not be run or whose `exitcode.txt` did not
  open (`BuildLaws.ExecuteAgreesExactly`); a cleanup whose failing removal has already taken the exit code
  of that build away or changed its class (`BuildLaws.CleanupAgreesExactly`). After a runner error the class
  in memory depends on the value the caller's exit code variable had before the call.
- `setvalue` with an empty name makes the whole session file unreadable, for setters too; values lose
  trailing blanks (`SessionStore.ReadableExactly`, `SessionStore.SetGetExactly`).
- A session parameter file that cannot be read goes unnoticed: `startjob` does not look at the error
  of `prepare_params`, and the next system call of `prepare_build` clears it. The child then sees the
  defaults; for a file that `setparam` wrote this is so exactly if some name was empty
  (`ParamTransport.ChosenAfterSets`).
- A cron entry with an empty job, saved with success, makes reading lose every entry
  (`CronCommands.EmptyJobLosesAll`). When the crons file does not open for writing, the command reports
  success and changes nothing; it has then taken effect exactly if it was to add an entry that was there
  already (`CronCommands.SuccessTakesEffectExactly`).
- A notification between post and wait is lost (`CronProtocol.LostNotify`), and then nothing happens without
  another command, a spurious wake-up or a stop (`CronProtocol.SettledExactly`). A stop request in that
  place leaves the watcher waiting, and the daemon with it (`CronProtocol.StopHeardExactly`).
  `include/cron.h` says that notifying uses a named mutex; the code uses only the condition, and the model
  follows the code.
- A timer that has expired when its entry is removed starts the removed job once more
  (`CronTimers.LateUpdateSpawns`); over a run everything is as it should be exactly if that never happens
  (`CronTimers.RunsSafeExactly`), and after one such update some way to go on always starts a job that is
  not listed (`CronTimers.StartsListedExactly`).
- The unfinished last line of stderr is kept only if the end-of-file completion carries a byte count
  (`JobRunner.ErrTailLost`); stdout always gives a final, possibly empty, line.

## Model

| member | source | states |
|---|---|---|
| Numbers.NumberStringRoundTrip | src/job.cpp:45-53 | the padded text of any number parses back to it, and is a build name exactly up to 999999 |
| Numbers.BuildNameRoundTrip | src/utils.cpp:13-17 | every build name is the padded text of one number, at most 999999 |
| Numbers.BuildNameShape | src/utils.cpp:13-17 | a build name is six digits and nothing else, and every number up to 999999 prints as six characters |
| Numbers.BuildNameOrder | src/job.cpp:393-412 | string order of equally long digit names is numeric order |
| Numbers.PrintedNumber | src/utils.cpp:19-29 | a printed number reads back modulo 2^32 if it fits 64 bits, and fails otherwise |
| Numbers.NumberInText | src/utils.cpp:19-29 | in any text the number is what blanks, an optional sign and the longest run of digits give, modulo 2^32; without a digit there, or from 2^64 on, there is none |
| Numbers.ExitFileRoundTrip | src/job.cpp:193 | the first line of a written exit code file reads back as the code modulo 2^32, which is 0 exactly for code 0, negative codes included |
| Builds.Numbered | src/job.cpp:389-412 | the numbers of the build-named entries are those whose six-digit name is an entry |
| JobStore.Job.MaxBuild | src/job.cpp:231-243 | scanning the entries in any order finds a number that no build directory exceeds and that one has, -1 if there is none |
| JobStore.WriteFiles | src/job.cpp:262-305 | the first copy or write that fails decides the error, and the files are exactly those written before it; without a failure the script, the encoded parameters, job.conf and the session id are there |
| JobStore.Job.FillBuild | src/job.cpp:255-305 | the build directory holds exactly those files, and nothing else of the job directory changes |
| JobStore.Job.PrepareBuild | src/job.cpp:225-310 | success exactly when nothing stands in the way of the number one above the greatest build directory; its directory then has the script and job.conf as they are in the job directory, the session id line, job.params and what it had before, the number is pending, and no other entry changes; on failure the error of the first step that fails |
| JobStore.Job.CreateBuild | src/job.cpp:255-310 | the same for any number, whatever has happened to the directory since the number was found; each failure names its error and leaves the files written before it, and the directory untouched if create_directory failed |
| JobStore.RunScript | src/job.cpp:173-205 | what the line callbacks write to output.txt is an order-keeping merge of the frames of both pipes |
| JobStore.Job.Execute | src/job.cpp:122-223 | which error each end reports, in the order of the checks; an early end changes nothing but the looked-up entry; a started build has an output.txt whose lines are the merged callbacks, the printed code in exitcode.txt if reported and writable, and its other files as before, and moves by the final value of the exit code variable |
| JobStore.Job.RunAndMove | src/job.cpp:173-222 | the part of that from the opened output file on |
| JobStore.Job.RemoveOldest | src/job.cpp:82-97 | the removal loop is the pruning function whose effects the BuildLaws lemmas state |
| JobStore.Job.Cleanup | src/job.cpp:80-115 | successful builds are pruned first, then broken ones unless a removal failed |
| JobStore.ScanBuilds | src/job.cpp:385-430 | scanning the entries in any order gives the maps of a reload |
| JobStore.ReloadShows | src/job.cpp:385-430 | those maps have each build-named entry where the number in the first line of its exit code file says, pending without one, and nothing else |
| JobStore.LoadConfig | src/job.cpp:318-383 | every error in its order; on success the script, each keep count and the parameters that the two files give |
| JobStore.LoadJob | src/job.cpp:312-444 | the job has the script and, each for its own class, the keep count that job.conf has, its params are those of job.params or none, and its maps classify the directory |
| JobStore.ConfigNeedsAllKeys | src/job.cpp:340-361 | although one key is never tested for, exactly files with all three keys and two numbers are accepted |
| BuildLaws.ReloadPartition | src/job.cpp:385-430 | a fresh load gives three disjoint maps, each number standing for its six-digit directory |
| BuildLaws.ExecuteMovesOne | src/job.cpp:213-222 | execute on a pending build keeps the partition and every number; it changes the maps exactly when the build started, and then moves that one build |
| BuildLaws.RefusedExecute | src/job.cpp:131-171 | a refused execute leaves the maps as they were exactly when the number was pending |
| BuildLaws.PreparePartition | src/job.cpp:307 | a number new to the maps becomes pending and the partition is kept |
| BuildLaws.ParamsInBuild | src/job.cpp:270-284 | the new build directory holds the parameters, and a reader gets them back exactly when they have names and no trailing trimmed blanks |
| BuildLaws.ChildReadsParams | src/get_param.cpp:16-55 | a loaded job, any readable session parameter file, any sequence of set_param calls, the choice startjob makes in that session, and prepare_build: getparam on the job.params in the build directory, before and after the script ran, gives the last value set for a declared name, else the one in the file, else the default in the job.params of the job, else the empty string |
| BuildLaws.PruneLeaves | src/job.cpp:87-97 | what a removal loop drops is below all it leaves, whether it fails or not |
| BuildLaws.PruneRemoves | src/job.cpp:87-97 | without a failure exactly the directories of the dropped builds are gone from the disk |
| BuildLaws.PruneFails | src/job.cpp:89-94 | a failing removal is at the oldest build left, which stays listed and on disk |
| BuildLaws.CleanupKeepsNewest | src/job.cpp:80-115 | on success both finished maps hold exactly their newest builds up to the keep count, and pending is untouched; on failure only oldest builds have been dropped |
| BuildLaws.CleanupDirectory | src/job.cpp:80-115 | a cleanup takes exactly the directories of the builds it drops out of the job directory, and without a failure changes no other entry |
| BuildLaws.PrepareAgreesExactly | src/job.cpp:255-307 | after a prepare a reload agrees with memory exactly when, up to 999999, the build could be prepared and its script is no exit code file, or its directory could not even be made; and beyond, when it could not be prepared: all known before the call |
| BuildLaws.ExecuteAgreesExactly | src/job.cpp:173-222 | after an execute a reload agrees with memory exactly when the build never started or its exit code was reported and written |
| BuildLaws.CleanupAgreesExactly | src/job.cpp:80-115 | after a cleanup a reload agrees with memory exactly when what is left of the oldest outdated build that cannot be removed still has an exit code of its class |
| BuildRuns.NumberAdvancesExactly | src/job.cpp:245-251 | a successful prepare raises the next number exactly up to 999999 and leaves it as it is beyond |
| BuildRuns.CleanupKeepsGreatest | src/job.cpp:82-104 | with keep counts of at least 1 a cleanup from maps of any age never removes the greatest build directory |
| BuildRuns.NumbersOnlyGrow | src/job.cpp:231-253 | with keep counts of at least 1, over every run of loads, prepares (each finding a six-digit number left), executes and cleanups of any number of job objects the numbers given out strictly increase and exceed every build that was there |
| BuildRuns.MapsStayPartition | src/job.cpp:186-188 | with keep counts of at least 1, in every state of such a run the maps of every job object are a partition |
| BuildRuns.SoleJobPartition | src/job.cpp:186-188 | with any keep counts, in every state of a run of one job object its maps are a partition and every build in them has an entry in the directory |
| BuildRuns.PartitionExactly | src/job.cpp:186-222 | all runs of any number of job objects keep all maps a partition exactly when both keep counts are at least 1 |
| BuildRuns.SoleJobAgreesExactly | src/maintenance.cpp:59-68 | over a run of one job object a reload gives the maps in memory at every moment exactly when every step leaves its record |
| BuildRuns.ZeroKeepReuses | src/job.cpp:82-104 | with a keep count of 0, from any directory builds can be prepared in, a run gives one number out twice; if a second job object cleaned up, the first ends with the number finished and pending |
| BuildRuns.AscendExactly | src/job.cpp:231-253 | from any directory builds can be prepared in, all runs give out ascending numbers exactly when both keep counts are at least 1 |
| BuildRuns.NoRoomRestarts | src/job.cpp:245-253 | with only number 999999 in use, a run of one job object gives out 1000000 and then 0 |
| BuildLimit.BeyondFalls | src/job.cpp:245-253 | with a keep count of 1, from any directory builds can be prepared in, a run gives out 1000000 and then a number that is not greater |
| BuildLimit.AscendAnywayExactly | src/job.cpp:231-253 | all runs, whether or not the six-digit numbers run out, give out ascending numbers exactly when both keep counts are at least 2 |
| BuildLaws.CleanupSpares | src/job.cpp:80-115 | a cleanup, failing or not, leaves the directory of every build as it was that is not outdated in either finished map it works from |
| BuildRaces.RacesStayDistinct | src/job.cpp:231-268 | with keep counts of at least 1, over every interleaving of listings (each finding a six-digit number left), creations, executes, loads and careful cleanups no number is given out twice, all exceed the builds that were there, and all maps stay partitions |
| BuildRaces.RunIsRace | src/job.cpp:225-253 | every run in which prepare_build is one step is a careful interleaving that ends in the same state |
| BuildRaces.CarefulRacesExactly | src/job.cpp:231-268 | all careful interleavings with room for each listing give out distinct numbers exactly when both keep counts are at least 1 |
| BuildRaces.CarelessReuses | src/job.cpp:231-268 | if for either class more six-digit numbers are left than builds of it are kept, some interleaving gives one number out twice |
| BuildRaces.RacesDistinctExactly | src/job.cpp:231-268 | all interleavings with room for each listing give out distinct numbers exactly when for both classes no more six-digit numbers are left than builds of it are kept |
| ParamCodec.DecodeEncode | test_package/src/get_value.cpp:9-14 | decoding undoes encoding on every string |
| ParamCodec.EncodeOne | test_package/src/get_value.cpp:9-12 | exactly a backslash, an equals sign and a newline are escaped, each by its own escape |
| ParamCodec.DecodeParts | test_package/src/get_value.cpp:13-14 | the three escapes decode, any other and one cut off are errors, and every other character stands for itself |
| ParamCodec.EncodeDecode | test_package/src/read_istream_kv_str.cpp:9-17 | a raw key that decodes is the encoding of what it decodes to, so two raw keys never mean one name |
| ParamCodec.TrimEncode | test_package/src/read_istream_kv_str.cpp:64-86 | trimming an encoded value trims the value |
| ParamCodec.ReadRender | src/set_value.cpp:57-71 | the reader gives written pairs back in order, values trimmed |
| ParamCodec.ReadTextLine | test_package/src/read_istream_kv_str.cpp:29-51 | in any text a blank line is skipped and a line with a non-empty escaped key gives its pair |
| ParamCodec.ReadBadLine | test_package/src/read_istream_kv_str.cpp:110-121 | any other line makes the text unreadable |
| ParamCodec.ReadLastLine | test_package/src/read_istream_kv_str.cpp:7-27 | the last line needs no line end, and an empty text has no pairs |
| ParamCodec.ToMapLast | src/set_value.cpp:37-43 | a repeated key keeps its last value |
| ParamCodec.RenderLines | src/job.cpp:278-284 | the writers put out one key=value line per pair, in order |
| ParamCodec.EmptyNameUnreadable | test_package/src/read_istream_kv_str.cpp:110-121 | a written pair with an empty name makes the file unreadable wherever it stands |
| ParamCodec.ReadRawPairs | src/set_value.cpp:37-43 | whatever the reader accepts raw is fit to be written back unchanged |
| SessionStore.SessionFile.Set | src/set_value.cpp:16-72 | all fault cases; without faults a non-empty name updates the map the getters see, and nothing else of it; `src/set_param.cpp` is the same code on the `.prm` file with another error code |
| SessionStore.SessionFile.Get | src/get_value.cpp:16-52 | all fault cases; the decoded value, or the empty string for an unknown name |
| SessionStore.Rewrite | src/set_value.cpp:57-71 | the loop writes the old entries in key order with the matching one changed, and appends a new one |
| SessionStore.RewrittenPairs | src/set_value.cpp:57-66 | the old entries are written in ascending key order, the value of the one that matches replaced |
| SessionStore.RewrittenAll | src/set_value.cpp:57-71 | all of them are written, and a new entry after them |
| SessionStore.SetUpdatesRaw | src/set_value.cpp:54-71 | one raw entry changes and all others keep their encoded bytes |
| SessionStore.SetUpdatesView | src/set_value.cpp:26-71 | for the getters a set is an update of one key of a plain map |
| SessionStore.SetsRefineMap | src/set_value.cpp:26-71 | after any sequence of sets the store is the old map overlaid with the last value of each name |
| SessionStore.LastWriteWins | src/get_value.cpp:46-51 | from no file, get returns the last value set for a name, or the empty string |
| SessionStore.ReadableExactly | src/set_value.cpp:37-43 | a session stays readable exactly as long as no empty name is set |
| SessionStore.SetGetExactly | src/get_value.cpp:36-51 | get returns what was set exactly for a non-empty name and a value without trailing trimmed blanks |
| ParamTransport.OverrideLoop | src/job.cpp:476-482 | the loop replaces the values of known names and keeps names and order |
| ParamTransport.PrepareParams | src/job.cpp:446-483 | all fault cases; session parameters override the declared ones |
| ParamTransport.PreparedParams | src/startjob.cpp:323-347 | a name has the value behind its last occurrence among the arguments in name position, empty if there is none behind it; no other names are there |
| ParamTransport.PromptParams | src/startjob.cpp:174-194 | position by position an empty or missing answer keeps the default and any other is decoded; an undecodable one, and only that, ends startjob |
| ParamTransport.ChooseParams | src/startjob.cpp:171-210 | arguments decide first, in either kind of session, by their last value for each name; then, in a session of its own, the answers position by position; else the readable session parameters, with the defaults left if they cannot be read; names and order never change |
| ParamTransport.ChosenAfterSets | src/startjob.cpp:171-210 | after any sequence of set_param calls on a readable file startjob uses the overrides exactly if no name was empty, and otherwise the defaults |
| ParamTransport.WriteParams | src/job.cpp:278-284 | the loop writes one encoded line per parameter in order |
| ParamTransport.GetParam | src/get_param.cpp:16-55 | all fault cases; the decoded value of the build, or the empty string |
| ParamTransport.ReadIsClean | src/job.cpp:370-383 | whatever a parameter file yields has non-empty names and values without trailing trimmed blanks |
| ParamTransport.SurvivesExactly | src/job.cpp:278-284 | exactly the parameter lists of that kind come back unchanged and in order from job.params |
| ParamTransport.ParamsReachChild | src/get_param.cpp:39-54 | from any readable session parameter file and after any sequence of set_param calls the child build reads the last value set for a declared name, else the one in the file, else the default, else the empty string; declared names keep their order and no others appear |
| Text.JoinSplit | src/job_runner.cpp:51-55 | joining the pieces between newlines gives the text back |
| Text.SplitJoin | src/job_runner.cpp:51-55 | there is no other way to write a text as newline-free pieces |
| JobRunner.Runner.OnOutLineRead | src/job_runner.cpp:57-88 | one callback per line and one for the rest at end of file; the consumed bytes leave the buffer |
| JobRunner.Runner.OnErrLineRead | src/job_runner.cpp:90-121 | as for stdout, but the rest only with a non-zero count |
| JobRunner.Runner.Run | include/job_runner.h:109-127 | for every cutting of both streams into arrivals and every interleaving, stdout and stderr give their frames and output.txt is an order-keeping merge of the two |
| JobRunner.OutFramesLoseNothing | src/job_runner.cpp:61-74 | the stdout callbacks joined by newlines are the byte stream |
| JobRunner.ErrTailLost | src/job_runner.cpp:94-107 | stderr is kept whole exactly when its last line is empty or the end-of-file completion carries bytes |
| JobRunner.MergeConserves | src/job.cpp:196-203 | output.txt neither loses, adds nor repeats a line of the two streams |
| JobRunner.MergeKeepsOrder | src/job.cpp:196-203 | the lines of each stream stand in the merge at rising positions, and each position belongs to one stream |
| JobRunner.LinesSplit | src/job.cpp:196-203 | the written text splits at newlines into the callbacks |
| CronText.InsertSorted | src/cron.cpp:24-28 | insertion keeps the order of cron_entry and adds exactly the entry |
| CronText.SortedUnique | src/cron.cpp:24-34 | a set of entries has one iteration order |
| CronText.ReadCrons | src/cron.cpp:102-118 | the reading loop yields the parsed entries, sorted |
| CronText.ParseParts | src/cron.cpp:102-118 | every text is complete lines, then a last entry without a line end or something that holds no record, and exactly the entries of those parts are read |
| CronText.ParseLastEntry | test_package/src/cron.cpp:58-59 | a last entry without a line end is read |
| CronText.ParseNoRecord | src/cron.cpp:107-115 | a tail without a space or with an empty field ends the reading and adds nothing |
| CronText.PrintLines | src/cron.cpp:66-70 | each entry is saved as job, space, expression, newline, in order |
| CronText.ParsePrintExactly | src/cron.cpp:66-70 | a saved list reads back exactly when all jobs are non-empty without a space and all expressions non-empty without a newline |
| CronText.ReparseStable | src/cron.cpp:88-121 | for every text, what was read is what is read again after saving it |
| CronCommands.CronList.Add | src/cron.cpp:78-81 | adds the entry to the sorted set |
| CronCommands.CronList.Del | src/cron.cpp:83-86 | removes the entry and counts it |
| CronCommands.CronList.Save | src/cron.cpp:55-71 | prints all entries; only a missing stream object is an error |
| CronCommands.CronsFile.Apply | src/cis_cron.cpp:35-130 | success and notification exactly for a valid command on a readable file that the stream takes, deletions of present entries only; the entries read back then differ in the one of the command alone, and otherwise the text stays |
| CronCommands.TakesEffectExactly | src/cis_cron.cpp:65-76 | a saved command has its meaning on the entries read back exactly when it adds no entry a line cannot hold |
| CronCommands.SuccessTakesEffectExactly | src/cis_cron.cpp:65-76 | a command that reports success has had its meaning exactly when the file opened and the entry to add fits a line, or the file did not open and the entry to add was there |
| CronCommands.CommandsDenoteFold | src/cis_cron.cpp:35-130 | any sequence of commands on any text leaves the fold of the commands over the set of entries |
| CronCommands.EmptyJobLosesAll | src/cron.cpp:107-115 | adding an entry with an empty job leaves a file that reads as empty |
| CronManager.MergeInsert | src/cron.cpp:202-217 | a new entry goes in right before the old cursor, and was in neither list |
| CronManager.MergeErase | src/cron.cpp:218-222 | erasing the entry at the old cursor removes exactly it |
| CronManager.CronManager.StepBoth | src/cron.cpp:200-228 | each round of the first loop moves a cursor forward, although the map grows and shrinks, or stops at a rejected expression; new_it and old_it are always equally far on |
| CronManager.CronManager.EraseRest | src/cron.cpp:230-233 | the second loop uses up the old entries |
| CronManager.CronManager.InsertRest | src/cron.cpp:235-248 | the third loop uses up the new entries unless an expression is rejected |
| CronManager.CronManager.Update | src/cron.cpp:166-249 | the keys become exactly the parsed entries, survivors keep their timers and waits, each vanished entry is cancelled once and each new one started once; make_cron throws exactly on a rejected new expression, on the first such entry in order, and exactly what stands before it has been done then |
| CronManager.UpdateAgain | src/cron.cpp:223-227 | an update on an unchanged file does nothing |
| CronManager.EffectsCount | src/cron.cpp:200-248 | there are as many cancels as vanished entries, as many starts as new ones, and no other effects |
| CronTimers.FireSafe | src/cron.cpp:139-147 | a handler that runs starts a listed job and arms its timer again, keeping one wait per entry |
| CronTimers.UpdateSafeExactly | src/cron.cpp:195-248 | an update keeps one wait per listed entry and none for others exactly when no removed entry has an expired wait queued |
| CronTimers.RunsSafeExactly | src/cron.cpp:130-153 | in every state of a run each listed entry has exactly one outstanding wait and nothing else has one, exactly when all updates of the run are such; and then every started job was listed |
| CronTimers.LateUpdateSpawns | src/cron.cpp:218-222 | for any entry four steps lead to the start of a job that is no longer listed |
| CronTimers.StartsListedExactly | src/cron.cpp:195-248 | after an update of a safe daemon, all that can follow with updates in time starts listed jobs only, exactly when no entry it removed had an expired wait queued |
| CronTimers.UpdateAfterCommands | src/cron.cpp:177-193 | the update after any sequence of commands leaves timers for the fold of the commands |
| CronProtocol.StepCoversExactly | src/cis_cron_daemon.cpp:96-114 | one step of a running daemon keeps a stale timer set covered exactly when it is not the last notify or read going to waste |
| CronProtocol.AlwaysCovered | src/cron.cpp:271-278 | over every run without a notify between post and wait and without a failed read, the timers match the file, or an update is queued or about to be posted, or a command is about to notify |
| CronProtocol.CoveredExactly | src/cis_cron_daemon.cpp:96-114 | over any run of a running daemon that starts covered, every state is covered exactly when no action loses the last thing under way |
| CronProtocol.CatchesUp | src/cis_cron_daemon.cpp:96-114 | from every covered state of a running daemon some actions of its own and of commands yet to notify lead to timers that match the file |
| CronProtocol.AlwaysCatchesUp | src/cis_cron_daemon.cpp:96-114 | left alone, with every notify heard and every read succeeding, it does a bounded number of actions in whatever order, and has timers that match the file when none is left |
| CronProtocol.LostNotify | src/cis_cron.cpp:67-76 | a command that saves and notifies between post and wait leaves the daemon waiting with old timers |
| CronProtocol.FirstUpdate | src/cis_cron_daemon.cpp:100-111 | the daemon is in that place after its first update |
| CronProtocol.SettledExactly | src/cis_cron_daemon.cpp:102-111 | every run of a daemon left alone is empty exactly when it is waiting with nothing queued and no notify to come |
| CronProtocol.StuckEnds | src/cis_cron_daemon.cpp:96-114 | from there another saving command or a spurious wake-up begins a run that leads to timers that match the file |
| CronProtocol.StopHeardExactly | src/cis_cron_daemon.cpp:89-113 | whatever follows the stop notification without a later notify or wake-up, once the watcher cannot go on it is past its loop exactly when the notification did not fall between its test and wait |
| CronProtocol.StopIsFinal | src/cis_cron_daemon.cpp:89-94 | after a stop no update runs and the timers stay as they are |

## Left out

- The logger, the web interface session, `src/session.cpp`, `src/context.cpp`, the stream and file-system adapters and the `main` functions of the tools: input, output and short branches.
- `make_cron` and `cron_next`: an expression is accepted or rejected, and a pending wait expires at any time.
- Regular expressions of `--list`, program options and process spawning.
- `newline_cb` of `job::execute`: the code never calls it, although `include/job.h` says that it is called.
- What a script does to its build directory besides its output, and script names that lead into sub-directories or name a directory.
- Two processes inside the creation of one build (src/job.cpp:255-307), two `cis_cron` processes editing at once, and readers of half-written files: each of these is one atomic step here.
- CronProtocol.AlwaysCovered: says nothing after a stop request, when updates no longer run.
- BuildRuns.NumbersOnlyGrow: with a keep count of 0 numbers do not only grow (BuildRuns.AscendExactly); it also assumes of every prepare that the next number is at most 999999, as a comment in src/job.cpp:247 does; runs without that are in BuildLimit.AscendAnywayExactly.
- BuildLimit.AscendAnywayExactly: starts with a number left and without an entry called 1000000.
- BuildRuns.MapsStayPartition: fails with a keep count of 0 when several job objects share the directory (BuildRuns.PartitionExactly), and in its runs, too, every prepare finds a six-digit number left.
- BuildRaces.RacesStayDistinct: assumes careful cleanups (without them see BuildRaces.RacesDistinctExactly) and, like the exact results beside it, that every listing finds a six-digit number left.
- CronTimers.RunsSafeExactly: updates in these runs read the file and reject no expression; an unreadable file changes nothing and a rejected expression ends the daemon.
- The destruction of a removed timer object: a queued handler of a removed entry is modelled as running and arming its timer again.
