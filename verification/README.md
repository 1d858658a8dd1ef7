# vomero_sandbox, modelled and proved

`vomero_sandbox` keeps a warm pool of Kubernetes worker pods and runs untrusted
commands in them. Its promises are spread over many small methods and many
threads: that a run never sees an earlier run's files, that a worker with a
command still running is never handed out, that the pool's capacity is neither
lost nor multiplied, and that a checkpoint restores a workspace exactly. This
project states those promises about a model of the code and proves them.

## How it is laid out

**The pool protocol.** `protocol.dfy` describes the pool as interleaved atomic
steps of callers, streams, sessions, wipe threads and replacement threads on one
free queue. Whatever the cluster, the sandboxed code or the scheduler decides is
carried by the event, so a run is any legal list of events. Each worker also has
history the code does not keep: its files with their authors, what its last wipe
failed to remove, and whose command may still be running in it.
`invariant.dfy` proves what every step keeps, `guarantees.dfy` what follows for
every run, `isolation.dfy` that the pool refines a machine with a new empty box
per run, `quiescence.dfy` that background work ends, and `interrupts.dfy` what
becomes of the pool when a release does not retire a worker it should have.

**The objects.** `pool.dfy`, `session.dfy`, `stream.dfy`, `spawn.dfy` and
`startup.dfy` are the classes of the library, with their fields and loops. Other
threads may act between any two atomic actions of a pool method (`Interfere`).
Each action is recorded, and a pool is `Valid` when its record is a legal run of
the protocol that ends in its present state; so everything proved of runs holds
of the pool and of the sessions that work through it. A stream object is tied to
the list of operations done to it, and `streaming.dfy` puts such a stream into the
pool: whatever its caller and all other threads do, in any order, its worker's
steps are enabled and the pool's record stays a legal run.

**Files in and out.** `upload.dfy` frames files as JSON of base64 (`json.dfy`,
`base64.dfy`) and reads them back in the pod, onto a disk whose paths are resolved
component by component (`disk.dfy`); `collector.dfy` reads files out under
a byte cap; `snapshot.dfy`, `paths.dfy` and `sorting.dfy` pack and unpack
checkpoints; `checkpoint.dfy` composes all of it. `project.dfy` is the pruned
directory walk, `exec.dfy` the exec channel, `watchdog.dfy` the idle watchdog in
the pod.

## What the code does not promise, and exactly when it does

Several promises hold only under a condition. The code is modelled as it is, and
the exact condition is proved.

- The cleaner passes over files it cannot remove and still reports success
  (runner.py:77-90). A run's workspace is its inputs over those leftovers, and is
  exactly its inputs if and only if every leftover is overwritten
  (`StartWorkspace`); `LeftoverReachesNextRun` is a run in which one is not.
- `_collect` turns a collector that timed out or failed into an empty result
  (runner.py:792-801), although a checkpoint is documented to raise rather than
  lose state (runner.py:1105-1108). `UnfinishedCollectorLosesAll` shows the silent
  loss; `CheckpointThenResume` is the exact condition for a lossless round trip.
- `json.loads` joins an escaped surrogate pair, so a path with a high surrogate
  directly before a low one arrives changed, and a length header of seventeen
  digits is misread. `FrameRoundTrip` and `StringSurvives` are if-and-only-ifs.
- Nothing checks or normalises the keys of `input_files`. `UploadDelivers` is the
  exact condition for an upload to store a dictionary as it is: each key a normal
  relative path other than `.`, none leading through another. `DirectoryNameFails`
  and `AliasesMerge` show `.` failing the upload and `p` and `./p` becoming one
  file. A snapshot member named `.` passes the name check (`DotAccepted`), and the
  session resumed from it then fails to start.
- A stream left with its generator suspended hands its worker back as healthy while
  the command may run (`HealthyVerdict`, `SuspendedHandsBackLive`), and a stream
  not used exactly once loses track of a worker (`FinishesEachWorkerOnce`).
- `_release` trusts its caller's `retire` flag. The callers set it for every
  `Exception`; a `BaseException` that interrupts `_dispatch` is not caught by them
  (runner.py:609-623). With such releases among the steps, the queue or a wipe gets
  a worker with a live command if and only if one of them finds a command running
  on a worker neither spent nor aged (`ReleaseDiscipline`), and every pool that can
  use a worker twice has a run in which it does (`InterruptHandsOverLive`).
- A spawn that raises inside `start`, or a delete that raises during the tear-down,
  leaves placed workers running (`Starter.Provision`, its `leaked` result).
- The collector counts a path as often as it is requested. Kept and dropped split
  the readable requests, for every cap, if and only if no readable file with
  contents is requested twice (`SplitsExactly`).
- `_exit_code` raises on an error channel that holds JSON but not a status object,
  or one with null details (`ExitCode`).

## Model

| member | source | states |
|---|---|---|
| Invariant.InvStep | src/vomero_sandbox/runner.py:588-706 | every step of every thread keeps exclusive ownership, distinct pod names, slot conservation, and what is known of a worker at each place |
| Invariant.ExclusiveStep | src/vomero_sandbox/runner.py:655-706 | a worker is never in the queue twice, nor in the queue and with a holder, a wipe or a replacement, nor with two of them |
| Invariant.NamedStep | src/vomero_sandbox/runner.py:821-824 | a serial drawn for a pod is new: no live worker and no other spawn in flight has it |
| Guarantees.SlotsConserved | src/vomero_sandbox/runner.py:655-706 | over every run: free, held, wiped and replaced workers add up to the placed ones minus the slots lost while the pool is open, never to more, and leases never exceed `pool_size` |
| Guarantees.LostCount | src/vomero_sandbox/runner.py:843-862 | a slot is lost exactly when a replacement's delete raises or its third spawn fails |
| Guarantees.QueueHoldsNothingLive | src/vomero_sandbox/runner.py:602-706 | no worker in the queue, or on its way there through a wipe, has a command whose channel was not seen closed |
| Guarantees.ReleaseGoes | src/vomero_sandbox/runner.py:670-686 | the same of every release among the steps of a run: queued with its files, wiped, or replaced, as the retire flag, age, uses, mode and kind of holder decide |
| Guarantees.PersistNeverWipes | src/vomero_sandbox/runner.py:670-686 | without `fresh_workdir_per_run`, over every run, a worker is wiped only on behalf of a ticket that a session leased |
| Guarantees.PersistKeeps | src/vomero_sandbox/runner.py:670-686 | in that mode a file one run wrote is what the next run on the worker starts with |
| Guarantees.QueueIsFifo | src/vomero_sandbox/runner.py:655-686 | over every run the workers taken from the queue, then those still in it, are those first there, then those that joined, in that order |
| Guarantees.ClosedBeginsNothing | src/vomero_sandbox/runner.py:688-702 | once the pool is closed, no wipe and no spawn begins and no serial is drawn, whatever the steps |
| Interrupts.ReleaseDiscipline | src/vomero_sandbox/runner.py:588-706 | over every run with releases that ignore what was left running: the queue or a wipe gets a worker with a live command if and only if such a release finds one running on a worker neither spent nor aged |
| Interrupts.InterruptHandsOverLive | src/vomero_sandbox/runner.py:602-623 | in every pool with a worker that may be used twice, a first call interrupted while its command runs is such a release |
| Guarantees.UseBound | src/vomero_sandbox/runner.py:670-706 | no worker is leased more than `max_uses` times or replaced twice, and a free one has been leased fewer times than that |
| Guarantees.CountRun | src/vomero_sandbox/runner.py:208-221 | the `uses` bookkeeping agrees with the leases and retirements counted in the run itself |
| Guarantees.StartWorkspace | src/vomero_sandbox/runner.py:588-608 | with `fresh_workdir_per_run`, a run's or stream's command starts with its inputs, where they land, over the last wipe's leftovers, with its inputs alone if and only if they cover the leftovers, and always when every wipe was complete: then it has just those paths, with the bytes that were sent |
| Guarantees.LeftoverReachesNextRun | src/vomero_sandbox/runner.py:77-90 | whenever a wipe leaves a file behind and the queue is empty, the next run can start with that file |
| Guarantees.LeftoverHappens | src/vomero_sandbox/runner.py:77-90 | every one-worker pool has a run from its start in which a second caller's command, given no files, starts with the first one's |
| Guarantees.SessionBegins | src/vomero_sandbox/runner.py:1016-1036 | a session starts with its restore map over its own wipe's leftovers, and with nothing else when wipes are complete, in either workspace mode |
| Guarantees.OthersKeep | src/vomero_sandbox/runner.py:655-706 | a step of any other thread changes neither a ticket nor its worker, except for files while a command runs |
| Guarantees.SessionContinuity | src/vomero_sandbox/runner.py:1121-1131 | between its own steps an idle session's workspace stays as its last call left it, whatever the rest of the pool does |
| Guarantees.SessionFilesGone | src/vomero_sandbox/runner.py:1174-1184 | when wipes remove all they find, no file a session wrote or restored is on a free worker or on one a run or pool stream holds, even in persist mode |
| Isolation.SimulateStep | src/vomero_sandbox/runner.py:588-706 | each step of the pool is an act of the machine that gives every holder its own box, or invisible to it |
| Isolation.WarmReuseRefinesFreshPods | src/vomero_sandbox/runner.py:588-706 | every run whose wipes are complete is, through its live holders' workspaces, a run of the fresh-box-per-run machine |
| Quiescence.ScheduleEnds | src/vomero_sandbox/runner.py:688-706 | under any schedule, without holders, wipe and replacement threads are done within a bound fixed at the start |
| Quiescence.NoDeadlock | src/vomero_sandbox/runner.py:688-706 | a background thread that is left can always take a step |
| Quiescence.ComesToRest | src/vomero_sandbox/runner.py:688-862 | from a reachable open state without holders, background work ends with all placed slots free except the lost ones |
| Quiescence.SleepBound | src/vomero_sandbox/runner.py:848-862 | a replacement makes at most three attempts, having slept 0, 2 or 6 seconds in all before them |
| Pool.SandboxPool.Interfere | src/vomero_sandbox/runner.py:243-246 | whatever other threads do, the pool stays a legal run and the caller's own tickets and idle workers are kept |
| Pool.SandboxPool.Lease | src/vomero_sandbox/runner.py:655-668 | a lease takes the queue's head under a ticket nobody had, or gives up with the queue empty |
| Pool.SandboxPool.Release | src/vomero_sandbox/runner.py:670-686 | the worker, its files as they were, is the queue's last if it is healthy and neither the mode nor a session asks for a wipe; it goes to a wipe if one does, and to replacement if it is retired, aged or at its last use |
| Pool.SandboxPool.CleanAndReturn | src/vomero_sandbox/runner.py:688-702 | a wipe thread queues its worker only after a completed wipe, retires it after a failed one, and gives up only on a closed pool; its own steps in each case |
| Pool.SandboxPool.Replace | src/vomero_sandbox/runner.py:843-862 | the outcome follows the first spawn of three to succeed, with the steps taken and the seconds slept in every case, closing included; a lost slot means a raised delete or three failures |
| Pool.SandboxPool.Command | src/vomero_sandbox/runner.py:645-647 | a command finds its inputs over the leftovers (none, if every wipe was complete), and ends in a seen exit or a doomed worker |
| Pool.SandboxPool.Prepare | src/vomero_sandbox/runner.py:632-644 | a command is ready exactly when its inputs fit the byte cap, its environment is valid, the upload is confirmed and the channel opens; otherwise the worker is doomed by the step that failed |
| Pool.SandboxPool.ExecOnWorker | src/vomero_sandbox/runner.py:625-653 | a call's own steps are those its checks, upload, command and collector determine; what its command finds is what the worker held plus the inputs where they land; success, timeout and failure are decided exactly |
| Pool.SandboxPool.Dispatch | src/vomero_sandbox/runner.py:588-623 | a call leases, takes exactly the steps its plan determines, and releases, retiring unless it finished; when wipes were complete its command found exactly its inputs |
| Pool.SandboxPool.Close | src/vomero_sandbox/runner.py:312-322 | the pool is closed and its queue drained although others may still put workers into it |
| Sessions.SandboxSession.Enter | src/vomero_sandbox/runner.py:1016-1036 | entering leases, wipes and restores: the workspace is the restore map over what the wipe left; a failed preparation retires the worker and ends the session |
| Sessions.SandboxSession.Call | src/vomero_sandbox/runner.py:1121-1140 | a call finds the session's workspace with its inputs, where they land, on top; one that does not finish retires the worker and ends the session; its own steps in every case |
| Sessions.SandboxSession.RetireNow | src/vomero_sandbox/runner.py:1169-1172 | the worker, if any, goes to be replaced, once, and the session is dead |
| Sessions.SandboxSession.Exit | src/vomero_sandbox/runner.py:1174-1184 | closing hands a healthy worker to a forced wipe, a dead session's to replacement, and closing again does nothing |
| Streams.FinishesEachWorkerOnce | src/vomero_sandbox/runner.py:1240-1331 | for every list of operations: `on_finish` was told about each acquired worker exactly once if and only if the stream was entered at most once, not after an exit, and then exited or failed to enter |
| Streams.HealthyVerdict | src/vomero_sandbox/runner.py:1302-1331 | a worker is handed back as healthy with its command's channel not seen closed exactly when the generator is suspended at exit and no error sets the flag |
| Streams.RetiredExactly | src/vomero_sandbox/runner.py:1240-1331 | for every list of operations that enters a stream once and then exits it: the worker is retired if and only if the preparation failed, an error escaped the `with` statement, the deadline passed, or the generator ended otherwise than by an observed exit that was collected; `result` is that exit, or the timeout |
| Streams.OrdinaryUses | src/vomero_sandbox/runner.py:1282-1318 | after any number of chunks: an exit that is collected keeps the worker and gives the code; the deadline, a break, an error and a failed collection each retire it |
| Streams.SilentUse | src/vomero_sandbox/runner.py:1282-1318 | a command that prints nothing, and an environment refused before anything runs, keep the worker |
| Streams.SuspendedHandsBackLive | src/vomero_sandbox/runner.py:1302-1331 | entering, reading one chunk and exiting with the generator kept is such a case |
| Streams.ResultOnlyFromTheChannel | src/vomero_sandbox/runner.py:1282-1318 | `result` is set once, exactly by an observed exit whose collection worked or by a timeout |
| Streaming.StreamFollowsProtocol | src/vomero_sandbox/runner.py:1240-1331 | for a pool's or a session's stream, over every interleaving of its caller with all other threads: the pool's record stays a legal run, the stream's next step is always enabled, and its worker is held at the stage its channel shows |
| Streaming.VerdictFitsProtocol | src/vomero_sandbox/runner.py:1320-1331 | exited with its generator exhausted or closed, a stream reports its worker once and the protocol allows what follows: release with that verdict, or for a session retirement or nothing; a worker not retired has no live command |
| Streaming.EnterSends | src/vomero_sandbox/runner.py:1142-1160 | entering a pool's stream leases a worker and sends it that stream's inputs, a session's stream sends them to the session's worker, and there are no other steps |
| Streaming.ExitTells | src/vomero_sandbox/runner.py:1320-1331 | exiting does to the worker just what the verdict says: a release with its retire flag, or for a session a retirement or nothing |
| Streaming.ProperUseRuns | src/vomero_sandbox/runner.py:1142-1160 | every list of calls that enters the stream once and exits it with the generator done can be carried out to its end |
| Streams.SandboxStream.FinishOnce | src/vomero_sandbox/runner.py:1325-1331 | `_finish` reports the worker and the retire flag once and forgets the worker |
| Streams.SandboxStream.Step | src/vomero_sandbox/runner.py:1282-1307 | one resumption of the generator: yield, completion, timeout, or error with the flag set; over whole uses it is `Streams.RetiredExactly` and `Streams.OrdinaryUses` |
| Exec.ExecStream | src/vomero_sandbox/_exec.py:101-149 | the pump yields the output, standard output before standard error in each turn, up to the first turn that finds the channel closed or the deadline passed, and says which |
| Exec.TurnInOrder | src/vomero_sandbox/_exec.py:134-144 | a turn adds its standard output, then its standard error, and nothing else, in each of the four cases |
| Exec.StopsOnce | src/vomero_sandbox/_exec.py:134-144 | a pump stops in one place and one way |
| Exec.ExecCapture | src/vomero_sandbox/_exec.py:152-174 | the buffered form returns what the turns before the stop had on standard output, and what they had on standard error, each joined in order |
| Exec.AwaitUpload | src/vomero_sandbox/_exec.py:78-93 | an upload is confirmed exactly when the mark appears in the output so far while the channel is open and on time, however it is cut up |
| Exec.OutIsJoined | src/vomero_sandbox/_exec.py:82-92 | the output so far is the standard output chunks of the same turns joined |
| Exec.ErrIsJoined | src/vomero_sandbox/_exec.py:134-172 | the standard error read off the turns is what the pump's chunks of it come to |
| Exec.JoinsApart | src/vomero_sandbox/_exec.py:165-172 | joining appends a chunk to its own stream and leaves the other as it was |
| Exec.ContainsExactly | src/vomero_sandbox/_exec.py:82-92 | the mark is looked for as a substring of the output |
| Exec.ExitCode | src/vomero_sandbox/_exec.py:177-193 | zero unless a status reports failure; then the first ExitCode cause, and one when nothing can be read; it raises exactly on JSON that is not a status with causes to go through |
| Base64.RoundTrip | src/vomero_sandbox/_exec.py:51-67 | decoding undoes encoding for every byte string (section 4 of RFC 4648) |
| Base64.SameBits | src/vomero_sandbox/_exec.py:67-67 | three bytes are written as four digits of the same 24-bit number, and the rest follows |
| Base64.TailBits | src/vomero_sandbox/_exec.py:67-67 | one or two bytes at the end are written as the digits of their number with zero bits after it, and padding |
| Base64.AlphabetMeans | src/vomero_sandbox/_exec.py:67-67 | the digits are the alphabet of table 1 of RFC 4648 |
| Json.StringSurvives | src/vomero_sandbox/_exec.py:44-67 | a string survives `dumps` and `loads` if and only if no high surrogate is directly before a low one (section 7 of RFC 8259) |
| Json.BodyRoundTrip | src/vomero_sandbox/_exec.py:44-67 | reading a written string gives it with its surrogate pairs joined, and stops at its closing quote whatever follows |
| Json.LoadsDumps | src/vomero_sandbox/_exec.py:44-67 | reading a written value of strings, arrays and objects gives it with all surrogate pairs joined |
| Json.DumpsAscii | src/vomero_sandbox/_exec.py:67-68 | all that is written is printable ASCII, so the header's count of characters is the count of bytes |
| Json.EscapesMean | src/vomero_sandbox/_exec.py:67-67 | which characters are escaped, and how; the rest stand for themselves |
| Json.UnitMeans | src/vomero_sandbox/_exec.py:67-67 | a code unit is written in four hexadecimal digits of its number |
| Json.ShapeMeans | src/vomero_sandbox/_exec.py:67-67 | brackets, commas and colons of what is written |
| Upload.ReadN | src/vomero_sandbox/_exec.py:36-43 | `readn` ends with exactly `n` characters, or all there are, for every way the input is cut into reads |
| Upload.RunUploader | src/vomero_sandbox/_exec.py:33-53 | the script's file-by-file writing below the root is the framed text's decoding written out, or fails with it |
| Disks.WriteLands | src/vomero_sandbox/_exec.py:46-51 | a write that succeeds changes the file its path normalises to, whatever way the path takes there, and no other |
| Disks.KeyLands | src/vomero_sandbox/_exec.py:46-51 | an absolute key is written where it says, outside the root; any other from the root down; one with a NUL nowhere |
| Disks.StorableParts | src/vomero_sandbox/_exec.py:46-51 | a key is a normal relative path other than `.` if and only if its components each name something below the directory before them |
| Disks.WriteStorable | src/vomero_sandbox/_exec.py:46-51 | such a key is written exactly when no file is on the way down and no directory in its place, making just the directories on the way |
| Disks.WritesAgree | src/vomero_sandbox/_exec.py:45-51 | making directories and opening files one by one is, for such keys, writing the workspace map |
| Upload.FrameRoundTrip | src/vomero_sandbox/_exec.py:67-68 | the reader decodes exactly the files sent if and only if the payload is shorter than 10^16 characters and no path has a surrogate pair |
| Upload.HeaderMeans | src/vomero_sandbox/_exec.py:68-68 | the header is sixteen decimal digits of the payload's length, most significant first |
| Upload.LongFrameFails | src/vomero_sandbox/_exec.py:68-68 | a payload of 10^16 characters or more is never decoded |
| Upload.UploadOverlays | src/vomero_sandbox/_exec.py:33-68 | over a workspace, an upload of normal keys succeeds exactly when no path leads through another file, old or new, and then leaves the old files with the new on top |
| Upload.UploadDelivers | src/vomero_sandbox/_exec.py:33-68 | an upload to an empty workspace leaves exactly the files sent if and only if the payload is shorter than 10^16 characters, every key is a normal relative path other than `.` without surrogate pairs, and none leads through another |
| Upload.DirectoryNameFails | src/vomero_sandbox/_exec.py:46-50 | a key that is empty, `.`, or ends in a slash or dots fails the upload |
| Upload.AliasesMerge | src/vomero_sandbox/_exec.py:45-51 | of `p` and `./p` sent together only the second is left, as one file |
| Workspace.WriteAllExact | src/vomero_sandbox/_exec.py:45-51 | in any order, files with distinct normal keys can be written exactly when no path leads through another, and then the workspace is the old one with them on top |
| Paths.AcceptedExactly | src/vomero_sandbox/runner.py:148-186 | normalise-then-check accepts a name if and only if it is relative and walking its components never goes above the root |
| Paths.NormalisesToKey | src/vomero_sandbox/runner.py:184-189 | an accepted name normalises to one that normalises to itself and is accepted |
| Paths.StackMeans | src/vomero_sandbox/runner.py:184-189 | normalising drops empty components and `.`, and a name together with the `..` after it, wherever they are |
| Paths.KeyKeepsMeaning | src/vomero_sandbox/runner.py:184-189 | below any root, an accepted name and its key lead to the same place |
| Paths.DotAccepted | src/vomero_sandbox/runner.py:148-154 | the name of the directory itself is accepted as a member name, and is its own key |
| Paths.KeyStaysUnderRoot | src/vomero_sandbox/runner.py:184-189 | joined to any absolute root, an accepted name's key resolves to the root's components followed by its own |
| Sorting.SortCanonical | src/vomero_sandbox/runner.py:168-168 | sorting the listings of a map gives one list, whatever order they were in |
| Sorting.LeqMeans | src/vomero_sandbox/runner.py:168-168 | the order is that of the first place where two names differ, by code point, with a name before those it begins |
| Snapshot.Pack | src/vomero_sandbox/runner.py:157-173 | the loop writes one regular member with fixed time per file, in sorted order |
| Snapshot.PackedAre | src/vomero_sandbox/runner.py:157-173 | a blob lists each file once, by strictly rising name, as a regular member of time zero with that file's bytes |
| Snapshot.Unpack | src/vomero_sandbox/runner.py:176-190 | the loop returns the normalised map or refuses, as the member list decides |
| Snapshot.RefusedExactly | src/vomero_sandbox/runner.py:181-186 | a blob is refused if and only if some regular member's name is not accepted |
| Snapshot.RefusesFirst | src/vomero_sandbox/runner.py:181-186 | the refusal names the first such member |
| Snapshot.LastWins | src/vomero_sandbox/runner.py:181-189 | each file comes from the last regular member that normalises to its path, and there are no other files |
| Snapshot.UnpackUndoesPack | src/vomero_sandbox/runner.py:157-190 | unpack after pack is the identity on maps of normal safe names |
| Snapshot.PackDependsOnTheMap | src/vomero_sandbox/runner.py:157-173 | equal states give equal blobs, whatever order the files were inserted in |
| Snapshot.UnpackPackUnpack | src/vomero_sandbox/runner.py:157-190 | for any archive, duplicates and directories included, unpack-pack-unpack is unpack |
| Collector.Collect | src/vomero_sandbox/runner.py:50-72 | the script keeps and drops what the request-by-request rule keeps and drops |
| Collector.KeptWithinCap | src/vomero_sandbox/runner.py:61-63 | for any request list the kept bytes stay within the cap, and what is kept or dropped was asked for and readable |
| Collector.StaysKept | src/vomero_sandbox/runner.py:61-63 | what the first requests kept or dropped does not depend on the later ones |
| Collector.DropsNothing | src/vomero_sandbox/runner.py:61-63 | nothing is dropped if and only if all that was asked for fits the cap |
| Collector.CollectAll | src/vomero_sandbox/runner.py:64-67 | in collect-all mode kept and dropped split the readable files, and no dropped file fits beside the kept ones |
| Collector.SplitsExactly | src/vomero_sandbox/runner.py:53-70 | that holds of a request list for every cap if and only if it names no readable file with contents twice |
| Collector.RepeatBreaks | src/vomero_sandbox/runner.py:68-70 | with a cap the requests before it just fill, a repeated file is both kept and dropped |
| Collector.SumIsDirBytes | src/vomero_sandbox/runner.py:61-63 | the running total of distinct files is the size of the map they form |
| Collector.ReportRoundTrip | src/vomero_sandbox/runner.py:779-801 | for kept paths without surrogate pairs the caller reads back the very files the collector printed, as many dropped names, and those very names if they have none either |
| Checkpoint.TakeCheckpoint | src/vomero_sandbox/runner.py:1101-1117 | a reply with dropped files raises with their number; any other gives the packed files |
| Checkpoint.CheckpointExact | src/vomero_sandbox/runner.py:1101-1117 | with a finished collector, `checkpoint` raises if and only if the readable files exceed the cap, with the number of dropped names, and otherwise its blob unpacks to all of them |
| Checkpoint.UnfinishedCollectorLosesAll | src/vomero_sandbox/runner.py:779-801 | with an unfinished collector, `checkpoint` succeeds and its blob is empty |
| Checkpoint.CheckpointThenResume | src/vomero_sandbox/runner.py:728-746 | checkpoint, resume and restore on any wiped worker is the identity on the workspace if and only if the workspace is empty, or the collector finishes, all is readable, both caps hold, no path has a surrogate pair and the frame is short enough |
| Spawn.WaitPlaced | src/vomero_sandbox/runner.py:864-902 | the first decisive event, and nothing before it, gives the verdict: running, failed, stuck on one of four reasons, or given up by the scheduler; without one before the watch ends there is none |
| Spawn.AwaitGone | src/vomero_sandbox/runner.py:927-945 | a pod counts as gone exactly when a 404 is seen at once or before the deadline, and a raise is passed on; a deadline that passes says nothing |
| Spawn.Spawner.Delete | src/vomero_sandbox/runner.py:927-945 | only a deletion seen through removes the pod; a raise is passed on |
| Spawn.Spawner.TrySpawn | src/vomero_sandbox/runner.py:811-841 | serials increase, only the new name's pod is touched, the three outcomes have exact conditions, and with deletes that see the pod gone a pod survives exactly when a worker is returned or a raised create had made it |
| Spawn.OneVerdict | src/vomero_sandbox/runner.py:864-902 | a stream of watch events has one verdict: the first decisive event's |
| Spawn.DecisiveSettles | src/vomero_sandbox/runner.py:879-898 | an event is decisive if and only if it settles some verdict |
| Spawn.UndecidedMeans | src/vomero_sandbox/runner.py:879-898 | an event settles nothing if and only if the pod neither runs nor has failed, no container waits for one of the four terminal reasons, and no condition says the scheduler gave up |
| Spawn.SettlesMeans | src/vomero_sandbox/runner.py:879-925 | a verdict of being unable to pull names the reason of the first container with one of ImagePullBackOff, InvalidImageName, ImageInspectError and RegistryUnavailable; the others follow the phase and the scheduler |
| Spawn.ImagePullError | src/vomero_sandbox/runner.py:914-925 | the reason of the first container waiting for one of the four terminal reasons, or none |
| Spawn.IsUnschedulable | src/vomero_sandbox/runner.py:905-911 | true if and only if some condition says the scheduler gave up |
| Startup.Starter.Fill | src/vomero_sandbox/runner.py:285-296 | the placed workers are as many as the attempts that succeed in a row, with new increasing names, and a shortfall has exactly one reason |
| Startup.Starter.TearDown | src/vomero_sandbox/runner.py:297-301 | a partial pool is deleted in order, with its clients, up to the first delete that raises |
| Startup.Starter.Provision | src/vomero_sandbox/runner.py:283-310 | success queues exactly the placed workers, at least the floor; below the floor every placed pod and client goes and the queue is unchanged; a raise names what it leaks |
| Starters.StartOnce | src/vomero_sandbox/runner.py:268-310 | however calls of `start` interleave, the pool is warmed at most once and every call that returns returns the one report |
| Watchdog.PollBounds | src/vomero_sandbox/_pod.py:49-50 | the poll interval is the longest from 1 to 30 seconds that fits four times into the idle limit, and one second if that is under four |
| Watchdog.ProcessesMean | src/vomero_sandbox/_pod.py:33-33 | a listing is active if and only if it has a number other than 1 |
| Watchdog.Watch | src/vomero_sandbox/_pod.py:29-41 | the loop stops at the first idle sample `ttl` after the last active one |
| Watchdog.StopsOnlyWhenIdle | src/vomero_sandbox/_pod.py:33-40 | it never stops before start plus `ttl`, and every sample of the last `ttl` seconds was idle |
| Watchdog.ActivityIsSeen | src/vomero_sandbox/_pod.py:33-40 | activity that lasts a sampling gap is seen: the watchdog does not stop within `ttl` after it began |
| Watchdog.IdleWorkerStops | src/vomero_sandbox/_pod.py:33-40 | a worker idle from some time on stops within `ttl` and one sampling gap of it |
| Project.ReadProjectTree | src/vomero_sandbox/runner.py:110-145 | the early-exit walk over folders, files and links returns the full pruned walk's dictionary, with each of its three errors exactly where `Project.ReadsProject` says |
| Project.ReadsProject | src/vomero_sandbox/runner.py:110-145 | reading fails on what is no directory, on selected files that exceed the cap together, and on nothing selected; otherwise it gives exactly the files of the tree as its links are to be seen none of whose components is excluded, with their contents |
| Project.WalkIsSeen | src/vomero_sandbox/runner.py:122-134 | with links followed, the walk is that of the tree with each link replaced by what it leads to; otherwise that of the tree without its links |
| Project.NoLinkUnlessFollowed | src/vomero_sandbox/runner.py:126-134 | with links not followed, no route that leads to a file meets a link |
| Project.FileIsSeen | src/vomero_sandbox/runner.py:126-134 | what a route leads to is what it leads to in the tree as its links are to be seen |
| Project.DictionaryExact | src/vomero_sandbox/runner.py:122-145 | the dictionary has a path if and only if it leads to a regular file and has no excluded component, and then it has that file's contents |
| Project.VisitsSelected | src/vomero_sandbox/runner.py:122-134 | the pruned walk visits a file if and only if its route leads to a regular file and has no excluded component |
| Project.ReadsExactlySelected | src/vomero_sandbox/runner.py:110-145 | from the root, the walk yields exactly the files that a route leads to with no excluded component, each once; what links lead to is `Project.FileIsSeen` |
| Project.DistinctPaths | src/vomero_sandbox/runner.py:132-142 | distinct routes give distinct relative paths, so no file replaces another in the map |

## Left out

What the model takes as given, or states more weakly than the code might be read:

- Isolation.WarmReuseRefinesFreshPods: assumes that wipes remove all they find; `Guarantees.StartWorkspace` and `Guarantees.SessionBegins` say exactly what holds without that.
- Isolation.SimulateStep: makes the same assumption.
- Guarantees.UseBound: has no age bound; `max_age_s` is looked at only on release, and whether a worker has aged is an input of the release step.
- Guarantees.StartWorkspace: speaks of the paths at which inputs land. For keys that are normal relative paths these are the keys (`Disks.Normal`, as in `Pool.Landed`); where other keys land is left to the environment, and for keys that lead through one another the upload fails (`Upload.UploadOverlays`).
- Pool.SandboxPool.ExecOnWorker: takes keys that are not normal relative paths to land anywhere, in the same way.
- Sessions.SandboxSession.Call: likewise; so does the restore map of a session.
- Guarantees.QueueHoldsNothingLive: failures are `Exception`s and a stream's generator is exhausted or closed before `__exit__`; `Interrupts.ReleaseDiscipline` covers the rest. Background processes of user code that outlive the exec channel are not tracked.
- Streaming.StreamFollowsProtocol: a stream is entered at most once, not after it was exited, and exited with its generator exhausted or closed; `Streams.FinishesEachWorkerOnce` and `Streams.HealthyVerdict` cover the rest. A session's stream is entered while the session is live, and the session makes no calls until the stream is exited.
- Upload.UploadOverlays: the workspace has no directory without a file below it; one that a command left in the way of a file makes that upload fail.
- Disks.WriteLands: permissions, symbolic links, limits on name lengths and the bytes names are encoded as are not modelled; a path outside the root is taken as writable. `scratch_dir` is absolute.
- Pool.SandboxPool.Lease: does not model who among several waiting callers is served first, nor how long a caller waits; an expired wait is any return with the queue empty.
- Pool.SandboxPool.Dispatch: the closed check is made before `start`, which is taken as done; error messages and timings of the result are not modelled, and neither are the files a failure leaves on the worker it dooms.
- Pool.SandboxPool.Close: covers the flag and the parked workers; the listing and deletion of the pool's pods in the cluster is not modelled, and steps of other threads after it are those the protocol allows on a closed pool.
- Sessions.SandboxSession.Enter: a session is not entered while already entered, as its `requires` says.
- Spawn.Spawner.Delete: takes the outcome of the wait, which `Spawn.AwaitGone` determines, as given.
- Spawn.Spawner.TrySpawn: its attempts follow one another, as in `start`; names under concurrent replacements are `Invariant.NamedStep`.
- Snapshot.Pack: an archive is its list of members; tar and gzip bytes are not modelled.
- Base64.RoundTrip: decoding of text that is not padded base64 of this alphabet is not that of Python's lenient decoder.
- Json.LoadsDumps: numbers, booleans and null are never sent and are not modelled.
- Collector.ReportRoundTrip: a reply that the collector script did not print (missing keys, other types) is read as no files, where the code has defaults for missing keys.
- Upload.RunUploader: a failed upload's partial files are not described here; in the protocol a failed upload may leave any of the caller's files, on a worker that is then retired. `int` accepts signs, blanks and underscores that no header has.
- Project.ReadProjectTree: the order of entries within a directory (the code sorts them), which fixes the dictionary's order and the path named in the size error, is not modelled; file sizes do not change between `stat` and reading; followed links do not form cycles; exclusion is any predicate on names, not `fnmatch`.
- Watchdog.IdleWorkerStops: the gap between samples and the lag of a clock reading behind its listing are parameters, since `sleep` promises no upper bound.
- One step of the protocol draws a serial and checks for closing together, and one confirms an upload as it is written; the code's steps are finer, and nothing shared changes in between.
- File modes, empty directories, symbolic links inside a workspace and process memory.
- Kubernetes client calls, the websocket, pod specifications, namespaces and network policy: foreign code or declarations, taken as the environment's answers.
- `_with_env`, `_parse_quantity`, `stats`, `reclaim_on_start`, exit hooks: one-branch code or process plumbing.
