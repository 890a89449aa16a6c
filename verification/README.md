# fdtcp: a verified model

fdtcp starts file transfers between two sites: it reads a pair of URLs, or a job file of
such pairs written by PhEDEx, groups them by end points, and for each group asks a daemon at
the destination to start a receiving server and a daemon at the source to start a sending
client. Daemons hand out ports, keep track of the processes they started, stream a child's
output back, and are asked to clean up at the end. The model covers these parts, one module
per file:

| file | models |
|---|---|
| Text.dfy, Tally.dfy | lines, words, split, join and strip; sums of counts |
| UrlPattern.dfy | the URL regular expression, as its greedy engine runs it and as its plain reading |
| JobFile.dfy | the job file, written in Perl and read in Python |
| TransferGroups.dfy | requests, the group key, the grouping, the destination list |
| TransferRun.dfy | all runs of `main`: messages sent, cleanups, exit status, as functions of what the outside does |
| TransferClient.dfy | `Transfer` and `main` as classes and loops, proved equal to TransferRun |
| Program.dfy | from the job file to the messages on the network |
| JobReport.dfy | the report reader of the PhEDEx backend: two-level index against linear scan |
| ChildOutput.dfy | the loop that passes a child's output on |
| PortService.dfy, PortRuns.dfy | the load test's `FDTService`: its class, and all interleavings of its threads |
| PortPool.dfy, PortReuse.dfy | the daemon's allocator `PortReservation`, and the order in which it reuses ports |
| PortRace.dfy | requests of many threads at the allocator |
| Daemon.dfy, DaemonRuns.dfy | the daemon's bookkeeping `FDTD`, serving one request at a time, and many threads |
| LogWait.dfy | waiting for a background process to come up |
| GridMap.dfy | the grid map file and the lookup of a subject |
| RateBins.dfy, IntervalBins.dfy | the two histogram scripts |

What the outside does (remote calls failing, readiness of pipes, processes starting and
exiting, clocks, the scheduler) is always a parameter, and every result holds for all its
values. Code that updates objects or loops is written as classes, methods and loops, each
proved equal to a function of its inputs; the theorems are about those functions.

## Where the code does something else than its documentation says

The model follows the code. Each point below names what shows that the promise fails, as a
rule a lemma with a concrete input or run, and then the exact condition, proved both ways,
under which it does hold.

- `PortReservation.reserve` (src/python/fdtd:66-91) is documented to reuse the oldest
  released port. It can hand out its first port while that port is in use and another one is
  free (`ReserveCanShareAPort`); `GrantIsFreeWhen` says when a single grant is of a free port.
  The promise is kept with any number of ports out as long as they come back in the order
  they were granted (`FifoKeepsOrder`), and a run is safe at all its times iff they do: after
  the first release out of that order, some continuation breaks the promise although all
  its releases are in order (`SafeWhenFifo`). In particular it is kept in all runs with at most k ports out iff k
  is at most 1 or there is only one port (`ReusesOldestWhen`). Each double grant costs the
  pool one port for good (`DoubleGrantsAreNeverPaidBack`).
- The same method tests for exhaustion outside its lock, so that two threads can be granted
  the last port, after which the pool no longer refuses (`RaceBreaksTheCount`). The count of
  ports taken stays within the range in all runs with at most k threads past the test iff k
  is at most 1 (`RacesFitWhen`), and in a given run iff no thread that got the lock found the
  pool full (`CountFitsWhen`).
- `FDTD.removeExecutor` (src/python/fdtd:370-410) is documented to remove a finished process
  and free its port. It always puts the entry back, and nothing in its block can raise the
  exception whose handler releases the port (`RemoveExecutor`). So a daemon serves each port
  of its range once, in order, which also keeps the first point from showing (`EachPortOnce`),
  and then refuses for ever, and no two registered executors ever share a port, iff no thread
  was past the test when the last port went (`ThenNoneWhen`, `PortsAlwaysDifferWhen`).
- `FDTD.addExecutor` is to refuse an id already registered, and tests for it outside its lock.
  Two requests for one id can both pass, and the second replaces the first one's process. No
  process is ever replaced iff no id is requested for two processes, or requests are served
  one at a time (`KeepsExecutorsWhen`, with the run that breaks it in `TwoEnter`).
- In the load test, ports are to have one owner each. Repeated clean-ups and services of one
  id break that (`RepeatedCleanUpSharesAPort`, `DuplicateServiceLeaksAPort`);
  `ExclusiveWhenHarmless` says for which jobs no interleaving does.
- The destination list sent to a server is recovered by splitting "source / destination"
  entries. A path with the separator in it, possible on the command line, is sent wrong
  (`DestFileCanFail`); `CarriesAllWhen` and `DestFileIsDest` say for which sources and
  destinations it is not.
- The report reader's index keeps one task per pair of names (`SharedNamesHideATask`);
  `IndexAgreesWhen` says for which tasks it agrees with reading the report line by line.
- `performCleanup` is called in `main`'s finally block for every transfer, so that no remote
  process is left behind. Writing the report always raises there
  (src/python/fdtcp:568-581 reads attributes of plain strings), and ApMon may raise; the
  remaining transfers are then skipped (`UnsafeRunExists`). A run keeps the promise iff no
  transfer that leaves a started party comes after one whose last cleanup leaves the finally
  block (`CoveredWhen`), in particular if no report is requested and ApMon raises nothing
  (`QuietRunsAreCovered`); all runs do iff there is a single transfer, or neither a report nor
  ApMon (`CleanupGuarantee`).
- `performCleanup` reverses its list, walks a copy and pops the list's tail, that is, the
  entries at the other end. A cleanup that breaks off in the middle is not completed by the
  next one (`BrokenCleanupSkips`).
- Any failed transfer is to set the exit status to 1 (src/python/fdtcp:636-637). A transfer
  whose set-up failed is skipped and then recorded as a success
  (`FailedSetUpCountsAsSuccess`), the child's own failure status is never looked at
  (`ChildStatusIsIgnored`), and later failures overwrite earlier ones. `ExitsWithZeroWhen`,
  `LastFailureDecides` and `CrashesWhen` give the exit by what the outside does, for all runs.
- fdtcp's `Logger` methods take one argument (src/python/fdtcplib/utils/Logger.py:122-148),
  while `main` and `performTransfer` pass more. With that logger no transfer completes
  (`OwnLoggerBreaksTransfers`) and the program never ends by `sys.exit` (`CrashesWhen`).
  `Config.loggerTakesArgs` chooses between it and a logger that takes them; the cleanup
  guarantee is proved for both.
- Transfers with the same hosts and ports are aggregated by a string key. Different end
  points can share a key (`KeysCanCollide`); `KeyIdentifiesRoute` says exactly which cannot.
- On success the client is not sent the output still unread when the exit is noticed, and
  unread error output is dropped in any case (`SuccessCanLoseOutput`);
  `WholeOutputDelivered` and `WholeErrorsDelivered` say when nothing is lost.
- `requestLocalId` is to find the entry of the subject or of one it extends. A subject without
  a leading slash loses its first component (`OtherSubjectsLoseAComponent`);
  `FoundByPrefixWhen` says for which subjects only prefixes are found, whatever the map.
- It builds exceptions for failed lookups without raising them; a search fails by an
  IndexError instead, iff no candidate is mapped (`LookupFailsWhen`).

## Model

| member | source | states |
|---|---|---|
| `UrlPattern.MatchIsFirstReading` | src/python/fdtcp:396-408 | The greedy backtracking engine returns, of all ways to cut a text into the pattern's pieces, the first in its order of preference (longest host, then port, then slash, then file), and nothing iff there is no way at all |
| `UrlPattern.MatchShape` | src/python/fdtcp:396-408 | The file found starts with a slash and hides no colon-digits-slash, the port is all digits, only a newline or the end may follow, and without a dropped slash the file does not start with two |
| `UrlPattern.RoundTrip` | src/python/fdtcp:390-408 | A printed URL is read back as its parts iff the file hides no later port and, printed without the extra slash, does not start with two slashes; in that case exactly one is lost |
| `UrlPattern.TextRoundTrip` | src/python/fdtcp:390-408 | The texts fdt://host:port//file and fdt://host:port/file, written out, are read as host, port and path, for every host, digit string and path without newlines and without a later colon, digits and slash; without the extra slash, one of two at the start of the path is lost |
| `UrlPattern.SomeUrls` | src/python/fdtcp:396-408 | fdt://a:1//f and fdt://a:1/f both give host a, port 1 and file /f |
| `UrlPattern.SomeOddUrls` | src/python/fdtcp:396-408 | Three slashes keep two, of two ports the last one counts, and the host may be empty |
| `UrlPattern.SomeOtherTexts` | src/python/fdtcp:396-408 | ftp://a:1//f, and texts with no port, with no slash behind it and with no colon, are no URLs |
| `UrlPattern.MatchedStartsWithScheme` | src/python/fdtcp:396 | Whatever matches starts with fdt:// |
| `UrlPattern.NewlineEndsUrl` | src/python/fdtcp:396 | A text with a newline and anything behind it is read as the text before |
| `JobFile.RoundTrip` | src/perl/FDT.pm:211-229 | For every list of tasks, reading what writeSpec writes gives the same pairs in the same order iff all names are non-empty and free of whitespace |
| `JobFile.WrittenText` | src/perl/FDT.pm:211-229 | One line per task, from and to with a space between, newlines between the lines; of a line with more words the first two count, and one word is an error |
| `TransferGroups.JobFileCarriesRequests` | src/python/fdtcp:421-442 | Pairs of URLs printed into a job file by the backend are read by fdtcp as exactly those requests, in order |
| `TransferGroups.KeyIdentifiesRoute` | src/python/fdtcp:411 | No other end points share a route's key iff neither of its hosts contains a colon, digits and a dash; colon-free hosts are a special case |
| `TransferGroups.UrlsOfRequest` | src/python/fdtcp:396-408 | All end points of the kind the key is about, with any paths that hide no port, do come from a pair of URLs |
| `TransferGroups.KeysCanCollide` | src/python/fdtcp:411 | Two requests with different routes, each parsed from its two URLs, have the key a:1-b:2-c:3 |
| `TransferGroups.CollidingRequestsMerge` | src/python/fdtcp:412-419 | Two requests with one key become one transfer with the first one's end points and both files |
| `TransferGroups.StablePartition` | src/python/fdtcp:410-419 | The groups are exactly the keys that occur; each holds the files of exactly the requests with its key, in input order, and the first one's end points |
| `TransferGroups.CountsSum` | src/python/fdtcp:410-419 | The files of all groups together are as many as the requests |
| `TransferGroups.FilesBelong` | src/python/fdtcp:410-419 | If no host hides a colon, digits and a dash, every file of a transfer comes from a request with exactly the transfer's end points |
| `TransferGroups.DestFileIsDest` | src/python/fdtcp:264 | For a source that neither holds nor completes " / ", the second piece of the entry is the request's destination iff the destination holds no " / " |
| `TransferGroups.CarriesAllWhen` | src/python/fdtcp:264 | Every path without the separator arrives as a destination of a source iff the source neither holds nor completes one |
| `TransferGroups.DestFileCanFail` | src/python/fdtcp:264 | Two requests parsed from URLs, with the separator in the source and in the destination, send a wrong path |
| `TransferGroups.DestFilesOfJobFile` | src/python/fdtcp:264 | For every job file that loads, the destination list of each transfer is the destination paths of its lines |
| `TransferGroups.LoadsWhenAllLinesDo` | src/python/fdtcp:421-442 | Loading raises no exception iff the file can be read, is not empty and each of its lines is a request |
| `TransferGroups.Transfers.SetTransfer` | src/python/fdtcp:389-419 | Adds the request to its group or opens a new one; if either URL does not match, nothing changes and the error names the destination |
| `TransferGroups.Transfers.ProcessCopyJobFile` | src/python/fdtcp:421-442 | The loop over the lines ends with the error of the first bad line, or with the groups of all requests |
| `TransferGroups.ErrorOfFile` | src/python/fdtcp:423-442 | A file that cannot be read and one without lines have their own exceptions; otherwise the first bad line is named by its number, if it has less than two words, and else by its second word, one of the two being no URL |
| `TransferGroups.TwoLineFile` | src/python/fdtcp:410-442 | The file of two lines from port 1 of host a to port 2 of host b loads as the one group a:1-b:2, whose entries are the sources and destinations joined by " / " |
| `TransferGroups.SomeRequest` | src/python/fdtcp:389-419 | The source is the first URL and the destination the second; whichever is none, the exception names the second |
| `Program.OnlyRequestsAreStarted` | src/python/fdtcp:183-197 | With one malformed line nothing is ever started; otherwise every server start goes to the destination and every client start to the source of some line |
| `Program.BadFileEndsWithOne` | src/python/fdtcp:617-634 | A file that cannot be read, is empty or has a line that is no request sends nothing and ends the program with status 1; any other is performed |
| `Program.SomeUri` | src/python/fdtcp:189-190 | The address of port 1 at host h is PYRO:FDTDService@h:1 |
| `Program.OneLineRun` | src/python/fdtcp:183-197 | A file of one line from host a to host b, with nothing failing, sends the six messages of its transfer to the addresses of a and b and ends with status 0 |
| `TransferRun.CleanupReachesAll` | src/python/fdtcp:326-362 | Whichever requests fail, each registered party gets one cleanup, last registered first, the list ends empty, and a second call sends nothing |
| `TransferRun.BrokenCleanupSkips` | src/python/fdtcp:343-362 | A cleanup broken off before its b-th request is completed by a later one iff b = 0 |
| `TransferRun.TransferSettles` | src/python/fdtcp:208-324 | Whatever call of a transfer fails, each party that was sent a start is later sent a cleanup in it or is still registered |
| `TransferRun.SingleRunSends` | src/python/fdtcp:208-308 | A run of a transfer that is not skipped sends Test to the receiver, Test to the sender, Receiving to the receiver and Sending to the sender, cut to 1, 2, 2, 3, 3, 4 or 4 of these if the fault is at one of the seven calls, and after that only cleanups of its id |
| `TransferRun.SingleRunCleansUp` | src/python/fdtcp:317-324 | If cleanups can be sent, exactly two follow, the sender's first; none if a test failed |
| `TransferRun.TransferSends` | src/python/fdtcp:208-308 | The same list, in any run, for what the transfer itself sends |
| `TransferRun.CoveredWhen` | src/python/fdtcp:639-708 | For every run of transfers with distinct ids, whatever is configured, fails or is interrupted: each party sent a start is later sent a cleanup with the same transfer id iff no transfer that leaves a started party comes after one whose last cleanup leaves the finally block |
| `TransferRun.QuietRunsAreCovered` | src/python/fdtcp:639-708 | With no report requested, that holds for any number of transfers if ApMon is not configured or raises nothing |
| `TransferRun.UnsafeRunExists` | src/python/fdtcp:686-708 | With a report or ApMon and two or more transfers there is a run in which a started server is never sent a cleanup |
| `TransferRun.CleanupGuarantee` | src/python/fdtcp:639-708 | All runs of a configuration with n transfers clean every started party up iff n is at most 1 or neither a report nor ApMon is configured |
| `TransferRun.FailedTransferIsCleanedUpLast` | src/python/fdtcp:639-708 | Of two transfers the first fails when its server is started: the whole trace, with the second performed and the first cleaned up behind it, results 1 and 0, and status 3 |
| `TransferRun.InterruptedRunStops` | src/python/fdtcp:681-708 | The first is interrupted there: the second sends nothing and has no result, the first is cleaned up, and the status is 6 |
| `TransferRun.IoErrorInFinallyBlock` | src/python/fdtcp:685-708 | If ApMon raises an IOError after the first last cleanup, the second transfer still gets its own with a logger that takes its arguments, and does not with fdtcp's |
| `TransferRun.LastFailureDecides` | src/python/fdtcp:640-684 | For every run: the status is that of the transfer interrupted first, or else of the last one that raises, whatever failed before, and 0 if none raises; unless the program crashes, as with fdtcp's logger it always does |
| `TransferRun.CrashesWhen` | src/python/fdtcp:685-713 | The program ends by an exception iff the logger is fdtcp's own, a report is requested, or the last cleanup of a transfer performed, of the parties it left registered, meets an exception other than an IOError |
| `TransferRun.ExitsWithZeroWhen` | src/python/fdtcp:636-713 | The program exits with 0 iff the logger takes its arguments, no report is requested, and each transfer is skipped at set-up or has no call fail and its own cleanup sent in full without ApMon raising |
| `TransferRun.FailureEndsRun` | src/python/fdtcp:641-684 | A failing receiver test, by its exception: result 1 and the status table 1 to 6, written out; with fdtcp's logger a crash, the result set only for an IOError, other errors and an interrupt |
| `TransferRun.SuccessEndsRun` | src/python/fdtcp:208-324 | With no failure the trace is the six messages and the status 0; the result is 0 iff the logger takes its arguments or there is no output |
| `TransferRun.FailedSetUpCountsAsSuccess` | src/python/fdtcp:212-214 | A transfer whose set-up failed sends nothing, ends with result 0 and leaves the exit status 0 |
| `TransferRun.ChildStatusIsIgnored` | src/python/fdtcp:304-308 | Messages, results and exit status are the same whatever the children reported |
| `TransferRun.OwnLoggerBreaksTransfers` | src/python/fdtcp:304-308 | With fdtcp's logger every transfer that gets as far as its child's output raises there, with both parties still registered |
| `TransferClient.Transfer.PerformCleanup` | src/python/fdtcp:326-371 | Messages, remaining list and exception are those of the cleanup function, for all failures |
| `TransferClient.Transfer.PerformTransfer` | src/python/fdtcp:208-324 | Messages, registered parties and exception are those of the transfer function, for all failures; which messages these are, `SingleRunSends` and `TransferSends` say |
| `TransferClient.Transfer.TestParties` | src/python/fdtcp:219-229 | Both parties are tested and a failure ends it; that the receiver comes first, `SingleRunSends` says |
| `TransferClient.Transfer.StartParties` | src/python/fdtcp:259-294 | The starts and their faults are those of the transfer function, of which `SingleRunSends` says that the server comes first, the client second, and each failure stops the chain |
| `TransferClient.Transfer.StreamLog` | src/python/fdtcp:304-308 | Raises iff an output record meets a logger that does not take it, or the remote iteration fails |
| `TransferClient.Transfer.Attempt` | src/python/fdtcp:641-684 | One turn of the loop: result, status and whether the loop goes on, for each class of exception |
| `TransferClient.PerformAll` | src/python/fdtcp:639-684 | The loop's messages, lists left to clean up, results and status are those of its function |
| `TransferClient.CleanUpAll` | src/python/fdtcp:685-708 | The finally loop's messages, and whether an exception leaves it, are those of its function |
| `TransferClient.PerformRun` | src/python/fdtcp:636-713 | The whole run: messages, results and exit of the run function |
| `JobReport.PrintedEntryIsRead` | src/perl/FDT.pm:174-180 | A line of fields joined by spaces is read as their entry; the same line with a leading space is garbage |
| `JobReport.LineOfWords` | src/perl/FDT.pm:174-180 | Three words are an entry unless one of the names is the digit 0; two words, or a leading blank, are garbage |
| `JobReport.LineWithDetail` | src/perl/FDT.pm:176-180 | Words behind the third are the detail |
| `JobReport.ReportIsItsLines` | src/perl/FDT.pm:174 | For all non-empty lines, their join by newlines is read as exactly these lines, with a newline at its end or, iff it is not just the digit 0, without one |
| `JobReport.BuildIndex` | src/perl/FDT.pm:163-171 | The two-level hash holds exactly the pairs of names of the tasks, each with the id of the last task that has it |
| `JobReport.ReadReport` | src/perl/FDT.pm:173-181 | The status hash holds for each id the last well-formed line of the pairs it owns, though lookups create empty inner hashes |
| `JobReport.JobDone` | src/perl/FDT.pm:149-203 | For any tasks and report, present or not, the completions are those of the scan of its lines; `ReportReachesTasks` says what they are for a printed report |
| `JobReport.ReportReachesTasks` | src/perl/FDT.pm:149-203 | From the text of the report to the completions: with distinct ids and pairs, each task is completed once, with status and detail of the last entry printed for its names, or the default if there is none |
| `JobReport.ThreeLineReport` | src/perl/FDT.pm:149-203 | A report of three lines written out, the third for the first one's names: both tasks get their last line |
| `JobReport.OneCompletionEach` | src/perl/FDT.pm:184-203 | Each defined task gets exactly one completion, in order, under its id |
| `JobReport.IndexAgreesWhen` | src/perl/FDT.pm:163-198 | Whatever the report, a task gets the last well-formed line for its names iff those names, if a line can hold them, stand for it, and no other names stand for its id |
| `JobReport.IndexAgreesWithScan` | src/perl/FDT.pm:173-198 | In particular a task with its own id and pair of names gets the last well-formed line for its pair |
| `JobReport.JobCompletionsWhen` | src/perl/FDT.pm:160-203 | On all reports the completions are those of an index-free scan iff each task of the job meets that condition |
| `JobReport.JobCompletions` | src/perl/FDT.pm:160-203 | With distinct ids and pairs, all completions are those of an index-free scan, or the default if no line names the pair |
| `JobReport.GarbageIsIgnored` | src/perl/FDT.pm:177-180 | Removing all lines that are malformed or name no task changes no status |
| `JobReport.SharedNamesHideATask` | src/perl/FDT.pm:169-171 | Of two tasks with the same names only the last in the hash sees the report |
| `ChildOutput.Executor.ExecuteWithLogOut` | src/python/fdtcplib/utils/Executor.py:102-126 | Under every schedule in which the child exits, the records are those of the stream function |
| `ChildOutput.Executor.ReadPipes` | src/python/fdtcplib/utils/Executor.py:109-118 | One line of every readable pipe is passed on and consumed, the output pipe first |
| `ChildOutput.OutputComesFirst` | src/python/fdtcplib/utils/Executor.py:106-126 | A turn with both pipes readable passes on a line of the output and then one of the error output; then come the later turns, or the status with all the output left |
| `ChildOutput.SomeSchedule` | src/python/fdtcplib/utils/Executor.py:106-126 | A pipe at its end yields empty lines, no readable pipe yields nothing, and a failure after 3 carries the unread output |
| `ChildOutput.NothingIsInventedOrReordered` | src/python/fdtcplib/utils/Executor.py:102-126 | The output records are in-order prefixes of the child's two streams, and with FAILED the records followed by OUTPUT are its whole output |
| `ChildOutput.OneStatusAtTheEnd` | src/python/fdtcplib/utils/Executor.py:119-126 | Exactly one status record is emitted once the child exits, it is last, carries the exit code, and is SUCCESS iff that is 0 |
| `ChildOutput.OutputIsFirstLines` | src/python/fdtcplib/utils/Executor.py:106-120 | The output passed on is the child's first lines, as many as the output pipe was read |
| `ChildOutput.WholeOutputDelivered` | src/python/fdtcplib/utils/Executor.py:119-124 | On success the client has the whole output iff the pipe was read at least once per line before the exit was seen |
| `ChildOutput.WholeErrorsDelivered` | src/python/fdtcplib/utils/Executor.py:109-126 | Whatever the exit code, the client has the first lines of the error output, one per read of its pipe, and all of it iff there were as many reads as lines |
| `ChildOutput.SuccessCanLoseOutput` | src/python/fdtcplib/utils/Executor.py:119-124 | A successful child of two lines, seen to exit after the first, has its second line dropped |
| `PortService.FirstFreeIsLeast` | tests/loadtest/fdt_server_runner.py:27-51 | The port reserved is the least free one of the range, and there is none iff all are taken |
| `PortService.FDTService.constructor` | tests/loadtest/fdt_server_runner.py:27-36 | A new service has the inclusive port range, no ports taken, no executors, both locks free |
| `PortService.FDTService.GetFreePort` | tests/loadtest/fdt_server_runner.py:38-51 | The search loop reserves the first free port or none, and gives its lock back on both paths |
| `PortService.FDTService.ReleasePort` | tests/loadtest/fdt_server_runner.py:53-63 | The port is no longer taken, a port that was not is only logged, and the lock is given back |
| `PortService.FDTService.AddExecutor` | tests/loadtest/fdt_server_runner.py:108-119 | A new id is entered with its port; a known one is only logged and changes nothing |
| `PortService.FDTService.RemoveExecutor` | tests/loadtest/fdt_server_runner.py:121-130 | The id is gone, all others stay, a missing one is only logged, and the lock is given back |
| `PortService.StepKeepsInv` | tests/loadtest/fdt_server_runner.py:38-157 | Every step of every thread keeps locks, thread states and port ownership consistent |
| `PortService.PortsAreExclusivelyOwned` | tests/loadtest/fdt_server_runner.py:38-157 | In every interleaving of harmless jobs, portsTaken is exactly the disjoint union of the ports of services between reserving and registering or releasing, of registered executors, and of cleanUps between removing and releasing |
| `PortRuns.ExclusiveWhenHarmless` | tests/loadtest/fdt_server_runner.py:65-157 | For any jobs and ports, that holds in all interleavings iff no id that can be registered is cleaned up twice, and none is served twice unless the range has just one port |
| `PortRuns.NoDeadlock` | tests/loadtest/fdt_server_runner.py:38-157 | In every reachable state of any jobs no thread holds both locks, and one can move whatever the outside does, until all are done and both locks are free |
| `PortRuns.RunsAreBounded` | tests/loadtest/fdt_server_runner.py:38-157 | A run of n threads has at most 11 n steps |
| `PortRuns.DriverMoves` | tests/loadtest/fdt_server_runner.py:188-225 | The driver that cleans up only after all services have finished cannot get stuck either |
| `PortRuns.NothingLeaks` | tests/loadtest/fdt_server_runner.py:188-225 | When the driver has finished, the executors left are those whose kill failed and the ports taken are theirs; both are empty iff every kill succeeded. Which kills do, and which starts, follows from the outside by `OutcomeFollowsOutside` |
| `PortRuns.OutcomeFollowsOutside` | tests/loadtest/fdt_server_runner.py:91-104 | In every run of any jobs: if nothing works for a thread it never ends as registered or cleaned up, if everything does it never ends as not started or not killed, and an id is registered only if a start of its service worked |
| `PortRuns.FailedStartFreesItsPort` | tests/loadtest/fdt_server_runner.py:93-101 | When all threads of harmless jobs have ended, exactly the ports of registered executors are taken, and none if nothing worked |
| `PortRuns.AllWorkingLeavesNothing` | tests/loadtest/fdt_server_runner.py:148-157 | If all kills work, the driver leaves no executor and no port |
| `PortRuns.RepeatedCleanUpSharesAPort` | tests/loadtest/fdt_server_runner.py:132-157 | With two cleanUps of one id there is a run after which two services hold the same port |
| `PortRuns.DuplicateServiceLeaksAPort` | tests/loadtest/fdt_server_runner.py:108-113 | A second service of a registered id keeps its port taken for ever without being registered |
| `PortPool.PortReservation.constructor` | src/python/fdtd:48-64 | A new pool has each port of the range once, in order, never reserved |
| `PortPool.PortReservation.Candidate` | src/python/fdtd:78-86 | The search loop finds the first free port reserved less often than the first one, or the first one |
| `PortPool.PortReservation.TakePort` | src/python/fdtd:77-91 | The locked section counts and flags exactly the candidate and returns its port |
| `PortPool.PortReservation.Reserve` | src/python/fdtd:66-91 | Raises and changes nothing iff the count equals the size of the range; otherwise takes the candidate |
| `PortPool.PortReservation.Release` | src/python/fdtd:93-111 | Frees the port, or raises and changes nothing if it is unknown or not reserved |
| `PortPool.FreshHoldsRange` | src/python/fdtd:48-64 | A new pool is the inclusive range, empty if the ends are crossed |
| `PortPool.TakeIs` | src/python/fdtd:77-91 | The slot taken is the first free one reserved less often than the first slot, or else the first; it alone changes, its count going up by one also when it is in use |
| `PortPool.GiveBackIs` | src/python/fdtd:93-111 | A release clears the flag of the port's slot and keeps its count; it raises for a port not reserved or not in the pool |
| `PortPool.GrantIsFreeWhen` | src/python/fdtd:78-91 | The port granted was free iff the first port is free or some free port was reserved less often than the first |
| `PortPool.ReserveCanShareAPort` | src/python/fdtd:78-91 | After reserving two ports and releasing the second, the first is granted again while in use |
| `PortPool.DoubleGrantsAreNeverPaidBack` | src/python/fdtd:66-111 | In every order of reservations and releases, the count is the number of ports in use plus the number of double grants so far |
| `PortPool.CapacityShrinksToOne` | src/python/fdtd:66-111 | A sequential client loses at most all ports but one, is refused iff used and lost ports make up the range, and an idle pool always grants a free port |
| `PortReuse.FifoKeepsOrder` | src/python/fdtd:66-111 | With any number of ports out, up to the whole range, each grant is of the free port released the longest ago, as long as ports come back in the order they were granted |
| `PortReuse.SafeWhenFifo` | src/python/fdtd:66-111 | At all times of a run the order is kept, and stays so whatever follows in grant order, iff each port came back in grant order |
| `PortReuse.ReusesOldestWhen` | src/python/fdtd:66-91 | In all runs with at most k ports out at a time each grant is of the free port released the longest ago, iff k is at most 1 or there is only one port |
| `PortRace.CountFitsWhen` | src/python/fdtd:73-91 | The count of ports taken stays within the range iff every reservation that got the lock found the pool not full |
| `PortRace.RacesFitWhen` | src/python/fdtd:73-91 | It does so in all interleavings with at most k threads past the test iff k is at most 1 |
| `PortRace.RaceBreaksTheCount` | src/python/fdtd:73-77 | Two threads make the test, pass it and both get the only port; the pool no longer refuses |
| `PortRace.ReturnReachesPool` | src/python/fdtd:93-111 | In every interleaving a port given back is freed in the pool, or nothing changes if it was not reserved |
| `PortRace.OnlyPortComesBack` | src/python/fdtd:66-111 | Of a range of one port the second thread is refused, unless the first gave it back before |
| `PortRace.GrantsInOrder` | src/python/fdtd:73-91 | Without releases the grants are of the ports in order and then of the first one over and over; the pool refuses iff each was granted once |
| `PortPool.RoundRobin` | src/python/fdtd:66-71 | If each port is released before the next is asked for, after any number of rounds and r turns the next port is the r-th of the range and none was ever shared |
| `PortPool.FillsInOrder` | src/python/fdtd:66-91 | Without releases the ports come out in order, each once, and the pool is full exactly after the last |
| `Daemon.FDTD.GetFreePort` | src/python/fdtd:324-330 | Grants what the pool grants, refuses when it is full, and leaves the executors alone |
| `Daemon.FDTD.AddExecutor` | src/python/fdtd:351-368 | A new id is entered; a known one raises and changes nothing |
| `Daemon.FDTD.RemoveExecutor` | src/python/fdtd:370-410 | A known id is still there afterwards, and no port is released |
| `Daemon.FDTD.KillProcess` | src/python/fdtd:427-445 | Raises iff the id is known and the kill fails; the executors are the same before and after in any case |
| `Daemon.FDTD.ServeOne` | src/python/fdtcplib/common/ReceivingServerAction.py:132-170 | One request: a server's port is reserved first, and an executor registered once its process is open, as the serial daemon's function says |
| `Daemon.FDTD.Serve` | src/python/fdtd:324-445 | A list of requests leaves the daemon as the serial daemon's function says, and grants its ports |
| `DaemonRuns.SerialRun` | src/python/fdtd:324-445 | Requests served one at a time are one of the interleavings, with at most one thread busy |
| `Daemon.SerialDaemonServesOnce` | src/python/fdtd:324-445 | One request at a time, the daemon grants each port of its range once, in order, and refuses iff asked more often than there are ports, whatever was registered and killed in between |
| `Daemon.SomeRequests` | src/python/fdtd:324-445 | Seven requests at a daemon with two ports: which executors it holds at the end, with which ports, and what it granted |
| `DaemonRuns.EachPortOnce` | src/python/fdtd:324-445 | In every interleaving of any number of threads the first n grants are of the n ports in order, and requests are refused exactly while n ports are granted |
| `DaemonRuns.ThenNoneWhen` | src/python/fdtd:73-91 | Once each port is granted no later request ever is, iff no thread was past the test by then |
| `DaemonRuns.IdsStay` | src/python/fdtd:351-445 | In every interleaving an id once registered stays registered, except while a thread that holds the lock puts it back |
| `DaemonRuns.LockExcludes` | src/python/fdtd:358-410 | In every interleaving the executors lock has at most one holder; while it is held no other thread changes the executors, and its holder frees it by putting back what it deleted |
| `DaemonRuns.KeepsExecutorsWhen` | src/python/fdtd:351-410 | In all interleavings of a set of requests with at most k threads busy no process is ever replaced under its id, iff no id is requested for two processes or k is at most 1 |
| `DaemonRuns.RegisteredPortsDiffer` | src/python/fdtcplib/common/ReceivingServerAction.py:132-170 | In every interleaving of requests that reserve a port and then register with it, no two registered executors have the same port while no more grants were made than there are ports |
| `DaemonRuns.PortsAlwaysDifferWhen` | src/python/fdtcplib/common/ReceivingServerAction.py:132-170 | Once each port is granted, that stays so for ever iff no thread was past the test by then |
| `LogWait.LastTurnLeaves` | tests/loadtest/ExecutorExperimental.py:146-175 | With half a second per turn and less than a day elapsed, turn 2 (W + 1) leaves the loop at the latest |
| `LogWait.Executor.HandleLogOutputWaiting` | tests/loadtest/ExecutorExperimental.py:144-176 | The last turn is the first one that shows the text, gives a code above -sys.maxsize, or is running with the seconds field past W; it comes within 2 (W + 1) turns, no later than any turn that shows the text, and leaves the last polled code |
| `LogWait.Executor.HandleNonBlockingProcess` | tests/loadtest/ExecutorExperimental.py:178-213 | The executor is registered with its caller iff the final poll finds the process running, and raises otherwise |
| `LogWait.Executor.Execute` | tests/loadtest/ExecutorExperimental.py:228-247 | Registered iff the process could be opened and the final poll finds it running; raises iff not registered |
| `LogWait.LongWaitsNeverEnd` | tests/loadtest/ExecutorExperimental.py:166-172 | For a silent running process the loop is left exactly when the seconds field passes W, hence never if W is a day less a second or more |
| `GridMap.PrintedEntryIsRead` | legacy/grid_auth_reference.py:672-680 | A quoted text followed by a user is read as that pair, without the blanks around the text |
| `GridMap.UnquotedLineIsSkipped` | legacy/grid_auth_reference.py:671-682 | A line with less than two quotes maps nothing |
| `GridMap.MappedByALine` | legacy/grid_auth_reference.py:671-682 | A subject is mapped iff some line of the file maps it |
| `GridMap.LastLineWins` | legacy/grid_auth_reference.py:671-682 | A subject is mapped to the user of the last line that maps it |
| `GridMap.GridMapChecker.Load` | legacy/grid_auth_reference.py:661-682 | The loop over the lines builds the map of the file |
| `GridMap.GridMapChecker.RequestLocalId` | legacy/grid_auth_reference.py:686-727 | The loop, which drops one component per turn, ends and returns what the lookup function says |
| `GridMap.LongestPrefixWins` | legacy/grid_auth_reference.py:697-719 | For a subject with a leading slash the result is the user of its longest mapped prefix of components, itself included; it fails iff no prefix is mapped, and every candidate is a prefix |
| `GridMap.FoundByPrefixWhen` | legacy/grid_auth_reference.py:697-719 | Whatever the map, a user found is that of a mapped prefix of the subject, iff the subject is empty, starts with a slash or has at most one |
| `GridMap.OtherSubjectsLoseAComponent` | legacy/grid_auth_reference.py:702-706 | The subject a/b/c finds the entry /b |
| `GridMap.LookupFailsWhen` | legacy/grid_auth_reference.py:686-727 | For every subject the lookup fails, by an IndexError, iff neither the subject nor any of its candidates is mapped |
| `RateBins.MakeBins` | hdfs/rates_distribution.py:65-72 | The loop ends with exactly NUM_BINS + 1 evenly spread bins if the rates differ, and with none if they do not |
| `RateBins.BinsAreEven` | hdfs/rates_distribution.py:65-69 | Neighbouring bins are one width apart, the first is at the least rate and the last at the greatest |
| `RateBins.ThirtyOneBins` | hdfs/rates_distribution.py:33-69 | There are 31 bins, a thirtieth of the range apart |
| `RateBins.Nearest` | hdfs/rates_distribution.py:75-80 | The loop finds the lowest index among the bins at the least distance |
| `RateBins.NearestIsWithinHalf` | hdfs/rates_distribution.py:74-81 | The bin chosen is at most half a width away, and the rate lies between the middles to its neighbours |
| `RateBins.CountRates` | hdfs/rates_distribution.py:59-87 | Bin i counts exactly the rates between the middles to its neighbours, upper one included; the counts sum to the number of rates; it fails iff all rates are equal |
| `IntervalBins.MakeBins` | hdfs/intervals_distribution.py:63-69 | The loop makes the 89 positions 4, 8, ..., 356 |
| `IntervalBins.FindBin` | hdfs/intervals_distribution.py:98-107 | The first-match search puts d minutes into bin max(0, floor((d - 3) / 4)) if d is at most 358, and into none otherwise |
| `IntervalBins.MinutesAreFull` | hdfs/intervals_distribution.py:95-97 | A pause can be read iff it lies between zero and a day, and then as the number of full minutes |
| `IntervalBins.CountPause` | hdfs/intervals_distribution.py:98-107 | Counting one pause keeps all counts equal to those of the formula |
| `IntervalBins.OnePause` | hdfs/intervals_distribution.py:75-107 | A pause of less than a day counts once, in the bin of its full minutes, or as not binned past 358 |
| `IntervalBins.CountPauses` | hdfs/intervals_distribution.py:75-107 | The script ends iff every non-zero pause lies between zero and a day; then each bin holds the pauses of the formula, and counts and unbinned ones add up to all of them |
| `IntervalBins.OrderedStampsAreReadable` | hdfs/intervals_distribution.py:75-97 | Timestamps in order and less than a day apart can all be read |

## Left out

- PortRuns.NothingLeaks: assumes that the driver's ids are distinct, as the driver numbers them.
- DaemonRuns.RegisteredPortsDiffer: servers on a port the user chose, which reserve none, are left out.
- TransferRun.CoveredWhen: transfer ids are distinct, as a host name, a time and a random string make them; and it assumes that inside performCleanup a proxy can be built for every URI and no interrupt arrives; BrokenCleanupSkips says what happens otherwise. Interrupts of a cleanup request already on its way are not modelled.
- DaemonRuns.KeepsExecutorsWhen: the look-up at the start of killProcess, two reads of the container, is one step; and so is each locked section, of which only the tests made without a lock could see the middle.
- LogWait.LastTurnLeaves: assumes return codes above -sys.maxsize, as an operating system gives them.
- ChildOutput.Executor.ExecuteWithLogOut: takes the pipes as unbuffered, so that communicate finds all that readline has not read; newline translation is left out.
- TransferGroups.Transfers.SetTransfer: a group is a value in the map, not a Transfer object; no group is shared between keys.
- IntervalBins.CountPauses: timestamps are given in microseconds; reading the calendar fields is left out.
- RateBins.CountRates: exact real numbers instead of floating point; the least and greatest rate are given, which excludes the empty input the script fails on.
- Exceptions of performTransfer before its first request, such as a timeout option that is no number: nothing is sent then.
- Remote calls are answered or raise one of the classes main distinguishes; Pyro proxies, sockets, alarms and other signals are not part of this model.
- Authentication, the daemon's dispatch of actions, its wait before a kill, its shutdown and its per-transfer log files.
- Option parsing and configuration, logging output, ApMon's data, the plots, the Java classes and the shell scripts.
- The contents of the report fdtcp writes: the code that writes it always raises.
- The synchronisation flag of CleanupProcessesAction, which the Executor of this version never sets up.
- In the Perl report reader, the text of the default detail and the times in a completion; blanks are those of a word split in Python, the vertical tab included.
- The grid map as a class attribute shared by all checkers, and the messages printed with a match.
