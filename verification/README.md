# RollHook: jobs, rollouts, logs and the registry

RollHook takes deploy jobs over HTTP, runs them one at a time, and rolls each service out on a
Docker host without downtime. This project models the parts of it where order, failure and
concurrency matter, and proves what they keep.

**Deploy pipeline.** `QueueProtocol` is the bounded job queue as a machine of single actions:
submitters and drainers that lock a mutex, one worker, a closable channel. `RolloutProtocol` is
one rollout as the sequence of calls it exchanges with the Docker daemon, with every reply,
failure, time-out and cancellation possible at every call; `RolloutHost` adds what the calls do
to the containers of the service, and `RolloutOutcome` says exactly which containers are left.
`Pipeline` puts queue, store rows, worker, rollouts and
process exits and restarts together, `Replicas` follows the containers of all services
through whole runs, and `Shutdown` is about draining the whole. `JobQueue`, `Rollout` and `Executor` are the Go code in its own imperative
form; each method is proved to make exactly moves of these machines, so that the machines'
theorems speak about the code.

**Log path.** `LogTail` is the log stream handler interleaved with the executor that still
appends; `LogStream` is its loop as written. `SseClient` is the dashboard's incremental parser and
its skipping of lines seen before. `LogFidelity` composes the two over any number of streams, and
`LogComponent` follows the component through polls, changes of status and restarts of the server.

**Registry supervisor.** `SupervisorProtocol` interleaves the watch goroutine with one waiter
goroutine per process ever started; `Supervisor` is the code of both.

**Algorithms and formats.** `Prune` (image retention), `EnvFile` (merging a variable into a
`.env` file), `ImageRef` (image references), `OciPath` (repository names in OCI paths),
`Base64Url` and `Token` (registry tokens), and `RegistryAuth` (what a credential opens), over `GoStrings`, the functions of Go's package strings.

Strings are byte-wise. Store writes, daemon calls, log writes and compose may fail at every call.
A `ghost` record of moves or events that a method returns is the link to its machine, not
state of the program.

## Where code and comments differ

The model follows the code.

- `Rollout`'s comment says that any failure rolls the new containers back. Only a failed health
  wait does. `RolloutOutcome.OutcomeContainers` says for every outcome exactly when the containers
  are those there were: after a failed health wait if and only if the removals took all that
  compose added, after a failed compose if and only if compose had added nothing, after a failed
  poll never; and the host is as before if, besides, compose has started no stopped container.
  `RolloutOutcome.ComposeLeavesContainer` and `RolloutOutcome.PollLeavesContainer` are runs that
  leave a new container.
- Errors while stopping and removing old containers are only logged. A success leaves no old
  container if and only if the removals took them all (`RolloutOutcome.OutcomeContainers`);
  `RolloutOutcome.OldContainerStays` is a run that succeeds and leaves one.
- A second `Drain` answers true at once. `QueueProtocol.DrainAnswersTrue` says what an answer of
  true is worth: every accepted job is done if and only if none was waiting or in flight at that
  moment, which the call that closed the queue waits for and a later one does not.
  `QueueProtocol.LaterDrainDoesNotWait` is a run with a job in flight.
- A job that `Enqueue` turns away keeps its queued row for ever, and so does a job that was
  waiting when the process exited: a boot fails running rows only
  (internal/db/jobs.go:184-189). `Pipeline.QueuedForGood` says so of every later run, over any
  number of restarts: the row stays queued and no worker takes the job up again.
- `FindMatchingContainer`'s comment promises an exact match first and the base name as a fallback.
  The first container with the base name is taken. `ImageRef.ExactMatchFound` says when that is
  the one that matches exactly, and `ImageRef.BaseNameWins` gives containers where it is not.
- The log stream reads to the end of the file first and asks for the job's status afterwards.
  What is logged in between is never sent: `LogTail.LateLinesAreLost` is such a run, and
  `LogTail.TailIsFaithful` has the exact condition. The dashboard streams a running job again and
  skips as many lines as it has shown, so that the early `[DONE]` takes the place of the lost line:
  `LogFidelity.LateLineHidden` is such a pair of streams, the second complete, and
  `LogFidelity.Fidelity` says exactly which streams spoil the view. It stays spoiled until the
  component learns the terminal status, which empties the view and streams the log afresh:
  `LogComponent.ComponentFidelity` and `LogComponent.PollThenStream`.
- The supervisor's comment promises to give up after consecutive crashes. The counter is
  reset by every start that succeeds, so that only failed starts accumulate:
  `SupervisorProtocol.SupervisorSafety` has the exact condition for giving up and
  `SupervisorProtocol.CrashLoop` a run with any number of crashes in a row that never does.
- `extractApp` does not know digests. `ImageRef.AppOfDigest` says when it still agrees with the
  other parser.
- `extractRepoFromPath` misreads a path whose last segment is itself called `manifests`, `tags`,
  `referrers` or `blobs`, and no other: `OciPath.RepoOfPath`.

## Assumptions about the outside

Of Docker's replies `RolloutHost.Truthful` is supposed: the first listing shows exactly the
service's containers, later listings may lag behind but repeat none, `compose up` adds new
containers only, no more than are missing, and all that are missing when it succeeds, it may start
stopped containers of the service again, and a stop
or remove that reports success took effect; one that reports an error may have taken effect or
not. Besides, `Pipeline.Step` and `RolloutHost.Apply` suppose that containers change by the calls
of rollouts only: none dies, starts or is removed otherwise, and `compose up` touches no other
service, although the command names none (internal/jobs/steps/rollout.go:60-65).

`Replicas.Gentle` is supposed for exact replica counts only: stop and remove calls succeed, no
rollout ends with a compose or poll failure, and the process does not exit inside a rollout.
`Replicas.NeverBelowFloor`, `RolloutOutcome.OutcomeContainers` and `RolloutProtocol.ZeroDowntime`
do not need it, and the last does not need `Truthful`. Log lines are appended whole, and none after
the row has become terminal, which `Executor.Executor.Run` proves of the executor. The keyed hash
of a token is any function whose output consists of bytes other than a colon.

## Model

| member | source | states |
|---|---|---|
| RolloutProtocol.ZeroDowntime | internal/jobs/steps/rollout.go:28-116 | in every reachable state of a rollout, for all replies: either no stop or remove was issued on a pre-existing container, or max(1, old count) listed replacements were each seen healthy and no rollback was issued; each failure leaves the old set untouched, a rollback covers exactly the new containers, success drains exactly the old ones |
| RolloutProtocol.RunFacts | internal/jobs/steps/rollout.go:28-116 | what the trace alone says (listings, inspections, stops, removes) agrees with the variables the rollout holds, at every step |
| RolloutProtocol.PrefixRuns | internal/jobs/steps/rollout.go:28-116 | every prefix of a rollout is a rollout, so the zero-downtime statement holds at each earlier point too |
| RolloutProtocol.NewIDsAreNew | internal/jobs/steps/rollout.go:224-236 | the containers found are exactly the listed ones that did not exist before, without repetition if the listing has none |
| RolloutProtocol.NewIDsInOrder | internal/jobs/steps/rollout.go:224-236 | the new containers come in listing order, each as often as it is listed |
| RolloutProtocol.OutcomeExplained | internal/jobs/steps/rollout.go:28-222 | from the trace alone: a rollout fails only for a reason in it, each outcome for its own: the one failed call; a failed or cancelled poll or the twelfth listing with still too few; a time-out, a cancellation or an inspection that fails, shows no health check or says unhealthy, before which nothing and after which only new containers are stopped or removed |
| RolloutProtocol.WhatFollows | internal/jobs/steps/rollout.go:102-189 | a container that is starting is followed by a wait or a cancellation only; a reason to give up by the rollback at once; a listing by another wait only if it showed too few; every stop by the removal of the same container, which comes nowhere else |
| RolloutHost.HostStep | internal/jobs/steps/rollout.go:28-116 | every call keeps either the old containers as they were or all the replacements running, whichever calls fail and whether or not a failed stop or remove took effect |
| RolloutHost.TidyStep | internal/jobs/steps/rollout.go:92-112 | while stop and remove calls succeed, a rollback and a drain account for every container at every step |
| RolloutHost.FoundAll | internal/jobs/steps/rollout.go:194-222 | a listing with enough new containers shows every container compose added, although it may lag behind |
| RolloutHost.ReplicaBounds | internal/jobs/steps/rollout.go:32-125 | at every step, whatever failed: no fewer containers run than at the start, and between n and 2n exist (0 and 1 on a first deploy) |
| RolloutOutcome.Containers | internal/jobs/steps/rollout.go:28-116 | at every step, whichever calls fail: the containers are those there were, with all that compose added and without all that removals took, and compose adds none that was there |
| RolloutOutcome.OutcomeContainers | internal/jobs/steps/rollout.go:67-116 | per outcome, for every failure of stop and remove: a success has max(1, n) added containers running and leaves no old one if and only if removals took them all; a failed health wait leaves the containers there were if and only if removals took all that was added; a failed compose leaves all that it added; a failed poll leaves max(1, n) added ones; and the host is exactly as before if and only if the containers are and compose started no stopped one |
| RolloutOutcome.NewsAreAdded | internal/jobs/steps/rollout.go:82-112 | the containers waited for, rolled back or kept are exactly those compose added |
| RolloutOutcome.OldContainerStays | internal/jobs/steps/rollout.go:102-115 | a run that succeeds although an old container stays |
| RolloutOutcome.ComposeLeavesContainer | internal/jobs/steps/rollout.go:67-75 | a run that fails in compose and leaves a new container |
| RolloutOutcome.PollLeavesContainer | internal/jobs/steps/rollout.go:82-85 | a run that fails in the poll and leaves a new container |
| Rollout.Rollout | internal/jobs/steps/rollout.go:28-116 | a failing rollout touches no pre-existing container and has its reason in its trace; a successful one has its replacements there and healthy and touches exactly the pre-existing ones; at most twelve listings, and floor(T/1000)+1 inspections for each new container, and a container times out only after more than T of its own time |
| Rollout.RolloutSteps | internal/jobs/steps/rollout.go:28-116 | the code's calls are a run of the protocol that ends with the outcome it returns |
| Rollout.WaitHealthy | internal/jobs/steps/rollout.go:128-168 | true only right after an inspection that said healthy; false only right after a time-out, a cancellation or an inspection that failed, showed no health check or said unhealthy; a time-out only more than T after the start; waits of 1000 ms; at most floor(T/1000)+1 inspections, none for a negative time-out |
| Rollout.RollbackContainers | internal/jobs/steps/rollout.go:173-189 | tries to stop and to remove each new container in order, whatever the calls answer |
| Rollout.PollNewContainers | internal/jobs/steps/rollout.go:194-222 | at most eleven listings with waits of 500 ms between them; answers only with enough containers, none of them pre-existing; gives up only after a failed listing, a cancellation, or the eleventh listing with too few |
| Rollout.FindNewContainers | internal/jobs/steps/rollout.go:224-236 | one listing, filtered to the new containers in listing order, or its error |
| EnvFile.SetEnvLine | internal/jobs/steps/rollout.go:266-290 | no line is lost or moved: one is replaced at the last assignment of the key, or the new one comes after all, before the empty line behind a last newline |
| EnvFile.NoLineLost | internal/jobs/steps/rollout.go:263-290 | the same of the merge that the four lemmas below are about |
| EnvFile.SetThenLookup | internal/jobs/steps/rollout.go:263-290 | after setting a key, reading it (last assignment wins) gives the value |
| EnvFile.SetKeepsOthers | internal/jobs/steps/rollout.go:263-290 | reading any other key gives what it gave before |
| EnvFile.SetTwice | internal/jobs/steps/rollout.go:263-290 | setting a key twice gives the same file as setting it to the second value |
| EnvFile.SetKeepsTrailingNewline | internal/jobs/steps/rollout.go:265-290 | a non-empty file ends in a newline afterwards if and only if it did before |
| QueueProtocol.QueueSafety | internal/jobs/queue.go:30-85 | for any interleaving: accepted = completed, in flight, waiting, in that order; one in flight; at most 1024 waiting; no closed channel is sent on or closed again; the mutex excludes |
| QueueProtocol.DrainTerminates | internal/jobs/queue.go:37-85 | once closed nothing is accepted, pending work never grows, the worker always has a move, and it exits after exactly the moves that were left, with all accepted jobs completed |
| QueueProtocol.DrainTrueMeansDone | internal/jobs/queue.go:63-85 | true from the call that closed the queue means that every accepted job is completed, and nothing is accepted ever after |
| QueueProtocol.DrainAnswersTrue | internal/jobs/queue.go:63-85 | whichever call of Drain answers true: every accepted job is completed if and only if none was waiting or in flight at that move; the closing call answers true only then, a later call exactly when it finds the queue drained |
| QueueProtocol.LaterDrainDoesNotWait | internal/jobs/queue.go:65-68 | a second Drain can answer true with a job in flight (a concrete run) |
| JobQueue.Queue.Enqueue | internal/jobs/queue.go:47-59 | appends exactly if not drained and not full, says which of the three happened, and is the protocol's moves |
| JobQueue.Queue.Drain | internal/jobs/queue.go:63-85 | the closing call is true only with an empty channel and all accepted jobs completed, and false only when the time-out has passed; a later call is true at once and changes nothing |
| JobQueue.Queue.AwaitWorker | internal/jobs/queue.go:73-84 | true only after the worker has exited, false only by the timer |
| JobQueue.Queue.Work | internal/jobs/queue.go:37-42 | the worker of a closed queue completes everything accepted, in order, and exits |
| Pipeline.Lifecycle | internal/jobs/executor.go:61-129 | in every run, over crashes, restarts and failing writes: statuses only move forward, a terminal row never changes, no job starts twice, an error is there if and only if the row failed, success only after a rollout that succeeded |
| Pipeline.QueuedRowsAccounted | internal/jobs/executor.go:61-129 | with a working store a row is queued if and only if its job is in one of five places (waiting, being submitted, taken but not marked, turned away, stranded by an exit), and never in two; the one running row is the worker's |
| Pipeline.QueuedForGood | internal/jobs/executor.go:61-76 | with a working store, in every later run: a job turned away, or left queued by an exit, stays recorded as such with its row queued, and is in no channel and with no worker of any later process |
| Pipeline.SubmitEffect | internal/jobs/executor.go:65-76 | an action of Enqueue moves a job from being submitted to waiting or to turned away, and loses none |
| Shutdown.DeployedNotFailed | internal/jobs/executor.go:112-129 | in every run, whichever writes fail: a job whose rollout succeeded has no failed row, but for one that a boot has marked interrupted |
| Shutdown.ShutdownSettles | internal/jobs/executor.go:91-129 | with a working store, in every run: once the closing Drain has answered true, every job accepted since boot has a terminal row, which says success if and only if its rollout succeeded, no row is running, and the worker is idle |
| Shutdown.WorkerNeverStuck | internal/jobs/queue.go:37-42 | in every reachable state of a process that is up the worker has a move, in the middle of any rollout too, unless it waits at an empty open channel or has left a closed one |
| Replicas.NeverBelowFloor | internal/jobs/steps/rollout.go:28-125 | over every run of the whole pipeline, with crashes inside rollouts and any failing call, whether or not it took effect, no service has fewer running containers than it began with |
| Replicas.ReplicaConservation | internal/jobs/steps/rollout.go:32-125 | over every gentle run, for all services at once: exactly n containers, all running, outside the service's own rollout, and between n and 2n inside it |
| Replicas.HostsAtRest | cmd/rollhook/main.go:80-124 | a first boot on hosts at rest meets what the two theorems above start from |
| Executor.Executor.constructor | cmd/rollhook/main.go:85-124 | booting marks interrupted jobs and then has a fresh queue, on any rows and logs an earlier process left; it is the pipeline's boot |
| Executor.Executor.Submit | internal/jobs/executor.go:61-76 | fails only if the directory or the insert did; else inserts a queued row, writes one line to this job's log and enqueues; a job the queue turns away (drained or full, and only then) keeps its row; an insert that fails enqueues nothing, whether or not the row is there; the call is a run of the pipeline |
| Executor.Executor.Run | internal/jobs/executor.go:91-129 | a run of the pipeline that ends the job: no error if and only if a rollout was reached and succeeded, and otherwise the error of the first step that failed; the writes are running, the service if found, and how it ended; the row is then success if and only if the rollout succeeded; no other row or log changes, and the log gains exactly whole lines, none after the row became terminal |
| Executor.Executor.Conclude | internal/jobs/executor.go:116-129 | the line that says how the job ended is logged, and then the status written that fits it |
| Executor.Executor.Execute | internal/jobs/executor.go:145-180 | the five steps are taken in order; the first of the first four that fails ends the job with its error, and without one all are taken, whatever pruning says; each store and daemon call is a move of the pipeline |
| Executor.Executor.Locate | internal/jobs/executor.go:146-154 | the service that is recorded and rolled out is the one discovered; without one nothing is written |
| Executor.Executor.ValidateAndPull | internal/jobs/executor.go:156-166 | no pull before a validation that worked, and no rollout before both; the service stays the one discovered |
| Executor.Executor.Finish | internal/jobs/executor.go:168-179 | prunes after a successful rollout and only then, and its failure changes nothing but the log |
| Executor.Executor.RollOut | internal/jobs/executor.go:168-171 | no error if and only if the rollout's conversation with the daemon ended in success; the rollout's calls, made by its own code, are moves of the pipeline |
| Executor.RolloutRuns | internal/jobs/executor.go:168-171 | every trace of the rollout protocol can be played by the pipeline's worker and ends in the same phase |
| Executor.Executor.AppendLog | internal/db/jobs.go:214-230 | exactly one write, to this job's log only: one stamped line, or nothing if the write fails |
| Executor.WriterRuns | internal/jobs/executor.go:91-129 | a job's writes are moves the log stream's theorems allow of a concurrent writer, and the log is what they wrote |
| Executor.Store.Insert | internal/db/jobs.go:46-56 | a new queued row, or no change; never over an existing row; success is reported only of a row that is there, a failure possibly too |
| Executor.Store.UpdateStatus | internal/db/jobs.go:110-116 | a write that fails changes nothing; one that works gives this row status and error and leaves its service and every other row; a row that is not terminal and does not go back keeps the forward order |
| Executor.Store.UpdateDiscovery | internal/db/jobs.go:119-125 | records one row's service; no status, no error and no other row changes, whether or not the write works |
| Executor.Store.MarkInterruptedJobsFailed | internal/db/jobs.go:184-189 | no row is left running; those that were are failed with the interruption message, the others are as before, and statuses only moved forward |
| LogTail.TailIsFaithful | internal/api/jobs.go:153-188 | with a writer interleaved anywhere: what was sent is a gap-free prefix of the log's non-empty trimmed lines, `[DONE]` once and last; the whole log if and only if nothing printable was logged after the last read, in particular if the row was terminal before it |
| LogTail.LateLinesAreLost | internal/api/jobs.go:155-187 | a run in which a line logged between the last read and the status query is never sent |
| LogTail.LinesAppend | internal/db/jobs.go:214-218 | appending to whole lines extends the lines read and changes none of them |
| LogTail.LinesPrintable | internal/api/jobs.go:157-162 | every line sent is non-empty and free of newlines, so that it can be framed |
| LogTail.LinesExactly | internal/api/jobs.go:155-162 | the lines of a log are what stands between its newlines, without trailing returns, in order, if anything is left |
| LogStream.Stream.Tail | internal/api/jobs.go:153-188 | the handler's loop, with the executor's writes between its actions, sends what the theorem above says; it ends only after an answered query that found the job terminal, or when the client has left |
| LogStream.Stream.ReadLine | internal/api/jobs.go:155-164 | exactly one read: it takes exactly the next line if there is one, else all that is left, and what is sent is then the lines of what was read; a partial line is held back |
| LogStream.Stream.CheckStatusAtEof | internal/api/jobs.go:169-180 | exactly one query: the stream ends if and only if it is answered and the job is terminal, and then with the held-back part, if any, and `[DONE]` |
| SseClient.CarryOver | apps/dashboard/src/lib/api.ts:64-78 | incremental = batch: the parts handed on plus the carried buffer, split again with the next chunk, are the split of the whole text, for any cut |
| SseClient.SplitBlankExactly | apps/dashboard/src/lib/api.ts:70 | the parts hold no blank line and, joined by blank lines, are the text |
| SseClient.StripExactly | apps/dashboard/src/lib/api.ts:73 | the field name is taken off once where it is, and other parts are left as they are |
| SseClient.ReceivedPrefix | apps/dashboard/src/lib/api.ts:64-78 | print/parse round trip: of any received prefix of the printed events the lines are a prefix of the events, and all of them when all arrived |
| SseClient.LogStream.Feed | apps/dashboard/src/lib/api.ts:65-78 | after any chunk, what was handed on is what the whole received text amounts to |
| SseClient.LogStream.Hand | apps/dashboard/src/lib/api.ts:72-76 | hands on the non-empty parts in order, without their field name |
| SseClient.LogView.OnLine | apps/dashboard/src/components/LogContainer.tsx:35-61 | the lines shown stay those of the earlier streams and then only the lines of this stream beyond as many |
| SseClient.StreamOnce | apps/dashboard/src/components/LogContainer.tsx:30-63 | one stream in any chunks extends what is shown by the lines it has beyond those shown before |
| LogFidelity.StreamLines | internal/api/jobs.go:153-188 | the lines that arrive of any stream are the first events of the finished log, unless and only unless the handler ended it early and its `[DONE]` arrived where the log has another line |
| LogFidelity.Fidelity | apps/dashboard/src/components/LogContainer.tsx:30-63 | for any streams since the view was last emptied, interrupted, racing with the writer, in any chunks: as many raw lines are shown as the longest of them delivered; they are a gap-free, duplicate-free prefix of the log's lines and `[DONE]` if and only if no stream ended early and got further than all before it, up to its `[DONE]`; and if so, everything is shown once one stream arrived in full |
| LogFidelity.LateLineHidden | apps/dashboard/src/components/LogContainer.tsx:30-82 | a stream that ends early, then one that arrives in full, after which the log's last line is not shown; the second stream in an emptied view shows the whole log |
| LogFidelity.ShownByEffect | apps/dashboard/src/components/LogContainer.tsx:20-89 | what these results call shown is what the effect's streams put into an emptied view |
| SseClient.Effect | apps/dashboard/src/components/LogContainer.tsx:20-89 | a change of job or status empties the view and its count and streams once, a running job any number of times; the view is then what these streams show, whatever was there before |
| LogComponent.ComponentFidelity | apps/dashboard/src/components/LogContainer.tsx:13-92 | over the component's whole life, with the pipeline crashing and booting behind it and polls that report late: the view is what `Fidelity` says of the streams since the last change of status; with a terminal status it is, whatever was shown before, exactly the first events of the log that the one stream since then delivered, and all once that arrived in full |
| LogComponent.PollThenStream | apps/dashboard/src/components/LogContainer.tsx:20-89 | from any view, spoiled or not, the poll that first reports the terminal row and then one complete stream show the whole log |
| LogFidelity.TerminalJobFidelity | apps/dashboard/src/components/LogContainer.tsx:30-63 | for a job that is terminal when streaming begins no stream ends early: the raw lines shown are a prefix of the log's lines and `[DONE]`, as long as the longest stream so far, and everything once one arrived in full |
| SupervisorProtocol.SupervisorSafety | internal/registry/manager.go:104-206 | in every interleaving: at most one live process; a set cmd is the latest process, paired with the current done channel; only that process's waiter can still clear it; backoffs are indexed in range; watch gives up if and only if three starts in a row failed |
| SupervisorProtocol.CrashLoop | internal/registry/manager.go:153-205 | for every n there is a run with n crashes in a row, each followed by a restart, after which watch has not given up |
| Supervisor.Manager.StartProcess | internal/registry/manager.go:104-151 | a success adds one process, the one done then belongs to, and makes exactly these moves: launch, publish cmd and done, start the waiter, with the other goroutines in between; a failed start changes nothing and keeps the crash count |
| Supervisor.Manager.Publish | internal/registry/manager.go:119-124 | cmd and done are replaced together |
| Supervisor.Manager.Wait | internal/registry/manager.go:140-148 | forgets the process and then announces its end, in this order, and touches no other process |
| Supervisor.Manager.Watch | internal/registry/manager.go:156-206 | the loop is the protocol's watch goroutine; it stops by cancellation or after three launches in a row that failed, and for no other reason |
| Supervisor.Manager.Turn | internal/registry/manager.go:159-205 | one turn launches exactly one process, after 1, 5 or 30 seconds by the number of failures before; a launch that works resets the count |
| Supervisor.OthersFrame | internal/registry/manager.go:126-148 | no run of waiters, processes and signals moves the watch goroutine or replaces the done channel |
| Prune.Retention | internal/docker/api.go:221-237 | however ties are broken: the candidates are the top `keep`, the removed and the spared; no removed image is in use, carries the deployed tag or is newer than a top-ranked one; every spared one carries the tag and is not newer than a top-ranked one; removal goes from newest to oldest |
| Prune.PruneImages | internal/docker/api.go:199-238 | the same of the code from the two listings to the removals; nothing is removed when `keep` is not positive, the repository is empty or a listing fails, and only the last is an error |
| Prune.InUseImageIDs | internal/docker/api.go:242-252 | exactly the images some container, running or stopped, is based on |
| Prune.SortNewestFirst | internal/docker/api.go:227-229 | a permutation of the candidates from newest to oldest |
| Prune.RemoveStale | internal/docker/api.go:231-236 | goes through the ranking and removes exactly what is beyond the first `keep` and not tagged |
| Prune.CandidatesCounted | internal/docker/api.go:221-226 | every listed image is a candidate as often as it is listed, or, if in use, not at all |
| ImageRef.RepoFromRefIsBare | internal/docker/api.go:300-311 | the result has neither tag nor digest, and parsing it again changes nothing, for every string |
| ImageRef.RepoOfTagged | internal/docker/api.go:289-311 | a tag, a digest or both appended to a bare repository, with or without host and port, are stripped again |
| ImageRef.AppIsBaseName | internal/jobs/executor.go:78-89 | on references without `@` the executor's name is the base name of the parsed repository |
| ImageRef.AppOfDigest | internal/jobs/executor.go:78-89 | with a digest they agree if and only if a tag precedes it |
| ImageRef.AppOf | internal/jobs/executor.go:80-89 | of every reference the app's name is its last segment up to the first colon |
| ImageRef.FindMatchingContainer | internal/jobs/steps/discover.go:61-83 | the first container whose image has the searched base name; none if there is none; the test for equal names adds nothing |
| ImageRef.ExactMatchFound | internal/jobs/steps/discover.go:61-83 | where some container matches exactly, the one found does if and only if no container before the first such has the base name |
| ImageRef.BaseNameWins | internal/jobs/steps/discover.go:61-83 | containers for which a later exact match loses to an earlier one that shares only the base name, for any registry, app and tag |
| OciPath.RepoOfPath | internal/registry/proxy.go:44-76 | printing any request of the OCI Distribution Specification v1.1 (section 'Endpoints') for any repository, even one with segments named like operations, and extracting gives the repository back if and only if the last segment the caller chose is not such a name |
| OciPath.PathSegments | internal/registry/proxy.go:44-51 | trimming and splitting a printed path gives its segments back |
| OciPath.ScanSuffix | internal/registry/proxy.go:52-76 | what the scan from the right finds in each kind of request, also when it goes wrong |
| OciPath.ExtractedExactly | internal/registry/proxy.go:44-76 | on every path: nothing outside "/v2/", else the segments before the last one that names an operation, and nothing without one |
| OciPath.ExtractedForm | internal/registry/proxy.go:44-76 | a repository comes only of a path "/v2/" repository "/" operation, with any slashes at the ends and anything behind the operation |
| OciPath.NoRepository | internal/registry/proxy.go:39-48 | the ping, with or without its slash, and single segments such as "_catalog" have no repository |
| OciPath.ExtractRepoFromPath | internal/registry/proxy.go:44-76 | the descending loop computes the function the lemmas above are about, for every path |
| Base64Url.DecodeEncode | internal/registry/token.go:26-34 | decoding an encoded string gives it back, for every string of bytes (RFC 4648, sections 5 and 3.2) |
| Base64Url.RoundTrip | internal/registry/token.go:26-34 | the same digit by digit, and an encoded text has no line break for the decoder to skip |
| Base64Url.DecodedExactly | internal/registry/token.go:31-35 | a text is decoded if and only if, without line breaks, it is all digits and does not leave one over; what it is decoded to is encoded to the same digits, but for bits of the last one that no byte holds |
| Base64Url.Alphabet | internal/registry/token.go:26-32 | the digits are those of RFC 4648, section 5, in its order |
| Base64Url.BreaksDropped | internal/registry/token.go:32 | the decoder skips carriage returns and newlines wherever they are, and nothing else |
| Token.ParseFormat | internal/registry/token.go:23-71 | every 64-bit number, negative ones too, is printed in decimal and parsed back |
| Token.ParsedExactly | internal/registry/token.go:67 | a text is parsed if and only if it spells a 64-bit number: perhaps a sign, perhaps zeros, and its digits; and as that number |
| Token.DigitsAre | internal/registry/token.go:23 | numbers are printed in decimal, the last digit last |
| Token.FieldsOf | internal/registry/token.go:37-53 | only the first and the last colon separate fields, so that names may contain colons |
| Token.FieldsInverse | internal/registry/token.go:37-53 | a text decodes to three fields only if it is these fields put together |
| Token.DecodeMinted | internal/registry/token.go:22-54 | decoding a minted token returns the name and the signed payload, for every name |
| Token.MintedUntilExpiry | internal/registry/token.go:22-77 | a minted token is valid at time t if and only if t is at most 900 seconds after it was minted |
| Token.AcceptedExactly | internal/registry/token.go:58-77 | a token is valid if and only if its decoded text is an unexpired expiry, a name, and the hash of the two |
| Token.NamedExactly | internal/registry/token.go:50-77 | the same for a given name: accepted with it if and only if some expiry makes it so |
| Token.RepoValidation | internal/registry/token.go:58-103 | the two validators, which repeat each other's checks, agree: validation for a repository is plain validation and that the name is the repository's and not empty, for every token |
| Token.MintedForRepo | internal/registry/token.go:22-103 | a minted token opens its own repository until it expires, and no other |
| RegistryAuth.CredentialExactly | internal/registry/proxy.go:88-108 | for every credential and path: it opens the path if and only if it is the shared secret, or its text is an unexpired expiry, a name and their hash and the name is that of the path's repository, or the path has none and is the ping |
| RegistryAuth.MintedOpens | internal/registry/proxy.go:88-108 | a minted token, unless it is the shared secret itself, opens exactly the paths taken for its repository and the ping, until it expires; never the catalog or an unknown path |
| RegistryAuth.MintedOpensRequest | internal/registry/proxy.go:44-108 | minting, printing and extraction composed: a token for a repository opens any request for it if and only if it has not expired and the request's last chosen segment is not named like an operation; if it is, exactly the tokens for the longer name open it |

## Left out

- The Docker SDK, the `docker compose` subprocess and the temp file it reads: calls with arbitrary replies, under the assumptions above.
- SQLite, migrations, `List` and time columns: rows are a map, with writes that may fail as a whole.
- HTTP routing, authentication, OIDC, bcrypt and HMAC: the hash of a token is a parameter.
- What validation of compose files and pulling of images do: steps of the job that work or fail. Pruning as a step likewise; `Prune` models it by itself. Notifications after the job are not modelled.
- Zot's configuration, `Manager.Stop`, `waitUntilReady` and the forwarding of Zot's output.
- The retries for opening a log, the answers for a log that never appeared or was removed, and the reaper of old logs.
- The headers of the proxy's requests: `RegistryAuth` begins with the credential taken from them.
- Time stamps and elapsed seconds in the log view, loading state, the demo mode, and UTF-8 decoding of chunks: lines are shown raw.
- Progress lines that the steps write to a job's log; only those of the executor itself are modelled.
- Fairness of goroutines and wall-clock time: a timer or a cancellation may come at any point.
- JobQueue.Queue.Enqueue: one uninterrupted call; calls of other goroutines between its actions are in `QueueProtocol`.
- JobQueue.Queue.Work: the worker's loop once the channel is closed; while it is open, other goroutines run between its actions, as in `QueueProtocol` and `Pipeline`.
- JobQueue.Queue.Drain: one uninterrupted call whose wait is the worker's run or the timer; all interleavings are in `QueueProtocol`.
- Executor.Executor.Submit: one uninterrupted call; submissions interleaved with the worker, drains and exits are in `Pipeline`.
- Executor.Executor.Run: no submission or exit happens between its actions; these are in `Pipeline`.
- Executor.Executor.Execute: what the steps before the rollout answer is arbitrary, and discovery finds one of the host's services.
- Executor.Executor.AppendLog: a write that fails leaves nothing; that it could leave a part of a line is not modelled.
- Replicas.ReplicaConservation: compose is taken to act on the service that is rolled out only.
- Pipeline.QueuedRowsAccounted: an insert that takes effect and reports an error leaves one more kind of queued row, which is not counted; the store is taken to report its inserts truly here.
- LogStream.Stream.Tail: the executor logs and the client waits finitely often, without a bound on how often; a handler that goes on for ever is in `LogTail` only.
- Supervisor.Manager.Watch: processes end finitely often, without a bound on how often, before the signal comes; a supervisor that goes on for ever is in `SupervisorProtocol` only.
- Prune.PruneImages: states which removals are tried; whether Docker carries one out, and child images it prunes along, is not modelled.
- Prune.SortNewestFirst: an insertion sort stands for Go's sort, and the result for images of the same age is left open in its contract.
- Rollout.Rollout: old containers are drained in an arbitrary order, as Go iterates over a map.
