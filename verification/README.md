# Capture and job farm: verified model

This project models the parts of a photogrammetry capture system where losing or repeating work
is easiest, and proves what they keep.

- **The job farm.** A server holds a table of jobs; nodes send heartbeats that name the jobs they
  run and the results they have, and the server answers with jobs to launch and jobs to kill.
  `JobTable.dfy`, `Reports.dfy`, `Admin.dfy`, `Scheduler.dfy` and `Heartbeat.dfy` give each
  operation as a function on the table and say what it does to every row; `NodeTable.dfy` is what
  a request stores of its node, and when it is given a job. `JobServer.dfy` is the server, changing
  its tables in place, proved against those functions; `JobClient.dfy` is the node's side. `Agreement.dfy` says what a single exchange establishes from any state.
  `Farm.dfy` is the whole farm as a state machine with messages lost, clients crashing and jobs
  restarted or deleted; `ReliableFarm.dfy` is what holds in addition when none of that happens, and
  `FirstJob.dfy` shows a job being done from its launch to its result.
  `RollUp.dfy` is what one report does to waiting parents, for any table, `LostOrder.dfy` when the
  order of lost jobs matters to them, and `FamilyRuns.dfy` how results reach them over whole
  reliable runs.
- **The .ava sequence file.** `AvaPipeline.dfy` is the concurrent encoding pipeline,
  `AvaFormat.dfy` (with `ByteOrder.dfy`) the bytes of the file, `AvaWriter.dfy` the serial writer and its `close`,
  `AvaReader.dfy` the independent reader, `AvaIndex.dfy` the index under a regular frame clock.
- **The crash-safe move** of captured files: `CopyFiles.dfy`.
- **The recording machine** of a camera: `Camera.dfy`.
- **Three loops**: `Audio.dfy` (buffered recording), `Http.dfy` (responses and chunked bodies,
  section 4.1 of RFC 7230), with `HttpCuts.dfy` (exactly when reading ends, on any text and on
  every message cut short), and `ShotName.dfy` (unique shot names).

Operations that change objects are classes with methods; each method is proved against a function,
its contract says in the source's terms what it leaves, and the further properties are lemmas about
the function. `dafny verify dfyconfig.toml` checks everything.

## How the farm is read

- One heartbeat is one atomic step on the table. Rows come back from a query in an order the
  database chooses, so orders are choices of the step and the theorems hold for all of them.
- The database hands out each primary key once, and every key in the table was handed out
  (`KeysIssued`). A request may name any ids. The one theorem that needs more says so, and its
  condition is exact: no request that reports an id gets it back to launch if and only if that id
  had been handed out or the table is empty (`NotGivenBackIff`).
- Both programs run on Python 2 (`website-backend/Dockerfile:1`): a GPU count that was never
  reported compares as less than any number.
- A client builds its payload by three separate reads, and jobs may end between them, so a job may
  be listed and reported at once (`Covers`). `BuiltPayloadCovers` shows that every interleaving of
  the worker threads with the reads gives such a payload, and one exchange, every run and every
  reliable run are proved for all such payloads. `job_client.py:236-237` (insert the result, then
  remove the running entry) is one step, except in the theorems about building a payload.
- "Reliable" runs have every message delivered, no restart, delete or crash, nodes that report more
  often than every two hours, and child jobs launched by a process of their running parent. Other
  runs may launch a child of any row, as a process that outlives its client's crash would.

## What the code does that its comments or names do not say

- Roll-up stops at the direct parent. Line 405 of `jobs/views.py` notifies the grandparent before
  line 407 saves the parent, so the grandparent still counts the parent as waiting: it never
  completes in the same call, for any table, even one whose parent links form a cycle
  (`CompletionStopsAtParent`, `GrandparentLeftWaiting`).
- Lost jobs are failed in the order of the query, and that order changes the outcome if and only if
  some waiting job has a lost child and a waiting child, and no children but lost ones, ended ones
  and waiting ones that have a lost child and otherwise only lost and ended children
  (`OrderMattersIff`). Such a job fails if a lost child of its own comes last, and waits with all
  its children ended if a lost child of its waiting child does.
- A job that yields is not looked at again until a child reports. After its report it waits in step
  with its children if and only if it has some, none of them waits itself, and one has no end
  (`InStepAfterYield`); with no child, or with all of them ended, it is left waiting.
- The tag filter is meant to keep back every job with a tag the node lacks (comment at 603-605),
  but only tags carried by some node are filtered: a job with a tag that no node carries runs
  anywhere (`UnknownTagRunsAnywhere`). `TagFilterExact` gives the exact condition.
- A final status is not final against heartbeats: a job already in success or failed that some
  client lists as running is running again, and one that is reported finished takes the outcome of
  its last report. It keeps its status if it is not reported (`FinalUnlessReported`); in reliable
  runs final statuses stay (`StatusesOnlyAdvance`).
- In the .ava index the zeros for a gap are written after the packet that ends the gap. Asking for
  the tick of a recorded frame still reads that frame, but a strict reader raises at it exactly
  when the tick before it was missed, and a missed tick reads the frame after the gap
  (`FrameAtTick`, `TickOwner`).
- The move of files completes, and deletes its sources, when two different sources share a
  destination, and then all but the last are lost. It delivers every file if and only if different
  sources have different destinations (`DeliversIffDistinct`).
- A run with deletion keeps every listed content at its source or its destination, for all contents
  and wherever it stops, if and only if no destination is a source and different sources have
  different destinations (`LosesNothingIff`). On any other list a run that nothing hinders loses
  something: the first file that is its own destination is removed before it is read, and the job
  raises; without such a file the job completes, and its deletions take any file whose destination
  is a source, and all but one of those that share a destination (`UndisturbedLoses`).
- `HttpResponse::read` may repeat its last line for ever. The header loop ends if and only if some
  line start is followed by a carriage return or by the end of the data (`HeaderEndsIff`); in
  particular it never ends on a text without a carriage return. The chunk loop never ends if and
  only if some chunk start is followed by a size line that announces data and by no whole chunk
  (`ChunksHangIff`). A chunked message cut short is waited for for ever if and only if the cut is
  inside a chunk, its size line included; cut exactly between two chunks it is taken for a whole
  message, with part of the data and no error (`StandardCut`; `MessageCut` gives the outcome for any
  size lines, whose fronts may also parse as zero or not at all).
- A chunk size counts only with its low 32 bits, as a signed number: 2^32 ends the body, and 2^31
  throws (`SizeLineOutcome`); a minus sign counts back from 2^64 (`ParseSizeIs`).

## Model

| member | source | states |
|---|---|---|
| JobTable.CountingMeansAllFinal | website-backend/ava/jobs/views.py:392-401 | the counts taken in the roll-up add up if and only if every child has ended, and the failed count is positive if and only if some child failed |
| JobTable.CompletionStopsAtParent | website-backend/ava/jobs/views.py:398-407 | a job still stored as waiting keeps its own parent from completing, for every table, cyclic ones included; this is why the mutual recursion ends |
| JobServer.JobServer.UpdateParentJob | website-backend/ava/jobs/views.py:390-407 | the recursive method, which notifies before it saves, leaves the table the roll-up function gives, and terminates |
| JobServer.JobServer.OnJobChanged | website-backend/ava/jobs/views.py:491-496 | the stored parent, if there is one, is rolled up and nothing else changes |
| RollUp.Complete | website-backend/ava/jobs/views.py:390-407 | the exact rows a completing parent leaves: its own final row, new progress at most on its waiting parent, every other row untouched |
| RollUp.ParentStatus | website-backend/ava/jobs/views.py:398-401 | a waiting parent becomes failed or success exactly when all its children have ended, failed if and only if one failed |
| RollUp.OnlyTheParent | website-backend/ava/jobs/views.py:390-407 | one child's report changes the status of no row but its direct parent; a row beyond it changes in progress at most, and only if it is the grandparent |
| RollUp.ProgressCounts | website-backend/ava/jobs/views.py:392-396 | the progress text of a waiting parent that is rolled up counts its successful children, its failed ones and all of them, in this order |
| RollUp.ReportedRow | website-backend/ava/jobs/views.py:620-661 | a reported row takes the report's progress, status and exception and changes in nothing else; only a job that yields and is its own grandparent is counted anew |
| RollUp.GrandparentLeftWaiting | website-backend/ava/jobs/views.py:405-407 | when a parent completes, its own waiting parent is left waiting, for every table |
| RollUp.ParentFollowsChildren | website-backend/ava/jobs/views.py:620-661 | within one request's list of reports, from any table: if each child is in it at most once and none yields, among any reports of other jobs, the parent waits until the last child's report and then failed if and only if some child raised |
| FamilyRuns.FamilyStaysInStep | website-backend/ava/jobs/views.py:390-407 | over any stretch of any reliable run in which no child yields, a parent that waits exactly while some child has no end, and has failed exactly if one of them failed, goes on doing so, whatever else happens |
| FamilyRuns.KidFate | website-backend/ava/jobs/views.py:620-661 | in such a stretch a child has an end if and only if some heartbeat reported it, and has failed if and only if the last word of such a report was a failure |
| FamilyRuns.RollUpOverRuns | website-backend/ava/jobs/views.py:390-407 | a parent waiting for children without an end stays waiting until every one of them has been reported, in any order and across any heartbeats of any nodes, and then has failed if and only if some report was a failure |
| FamilyRuns.InStepAfterYield | website-backend/ava/jobs/views.py:627-659 | for any table, after the report with which a job yields it waits, in step with its children if and only if there are some, none of them waits itself and one has no end |
| LostOrder.OrderMattersIff | website-backend/ava/jobs/views.py:666-672 | for every table and every set of lost jobs, all listings of them leave the same statuses if and only if no waiting job has both a lost and a waiting child and only children that are lost, ended or about to end with their own lost children |
| LostOrder.ClosedForm | website-backend/ava/jobs/views.py:666-672 | without such a job, any listing leaves failed exactly the listed jobs and the waiting ones whose children are all listed or ended, one at least listed; every other status stays |
| LostOrder.FailsWithOwnChildLast | website-backend/ava/jobs/views.py:666-672 | with such a job, every listing that ends with a lost child of it fails it |
| LostOrder.WaitsWithGrandchildLast | website-backend/ava/jobs/views.py:666-672 | and every listing that ends with a lost child of its waiting child leaves it waiting |
| LostOrder.FourRowsSensitive | website-backend/ava/jobs/views.py:666-672 | the four rows below are an instance of the condition |
| RollUp.GrandchildFirst | website-backend/ava/jobs/views.py:666-672 | the smallest instance: on four rows, one order of two lost jobs completes the grandparent |
| RollUp.ChildFirst | website-backend/ava/jobs/views.py:666-672 | on the same rows, the other order leaves the grandparent waiting with all its children ended |
| Reports.MarkReportedEffect | website-backend/ava/jobs/views.py:612-618 | every row: marked running if its id is listed, whatever its node, unless terminating; nothing else changes |
| Reports.LastProgress | website-backend/ava/jobs/views.py:612-615 | the last text a progress list gives for a job is the one it has |
| Reports.SpawnAddsChildren | website-backend/ava/jobs/views.py:630-640 | for any specs, row by row: the child of spec i is under the i-th next key, ready, with its spec's class, parameters and node, its parent's version and GPU need and no dependencies; no other row changes |
| Reports.AbsorbAllEffect | website-backend/ava/jobs/views.py:620-661 | every row after any list of reports, naming any ids: a reported job is waiting or ended, any other row is unchanged or a waiting one rolled up; every new row is a child of a reported job, ready unless the list also reports it |
| Reports.LastReportDecides | website-backend/ava/jobs/views.py:620-661 | a job reported in a list ends as its last report says, whatever was reported before and of others |
| Reports.FailAllEffect | website-backend/ava/jobs/views.py:508-514 | failing rows one by one, with roll-up after each, fails exactly the listed ones and otherwise only moves waiting rows |
| JobServer.JobServer.FailRows | website-backend/ava/jobs/views.py:668-672 | saving rows as the query returned them, interleaved with roll-ups, loses none of the roll-ups' updates: the result is that of failing the stored rows one by one |
| JobServer.JobServer.CleanupDeadJobs | website-backend/ava/jobs/views.py:508-514 | exactly the running or terminating jobs of nodes silent for two hours are failed; any other row is unchanged, or a waiting one rolled up |
| JobServer.JobServer.MarkRunning | website-backend/ava/jobs/views.py:612-618 | a progress list wins over a plain one; either way exactly the listed jobs that are not terminating are running, whatever their node, and a plain list changes nothing else |
| JobServer.JobServer.SpawnChildren | website-backend/ava/jobs/views.py:632-645 | the children of a yielding job, in order, each under the next key with its spec's class, parameters and node and its parent's version and GPU need; no other row changes |
| JobServer.JobServer.AbsorbReport | website-backend/ava/jobs/views.py:623-664 | one report: children, new status, save, roll-up; an id no longer in the table changes nothing |
| JobServer.JobServer.AbsorbFinished | website-backend/ava/jobs/views.py:620-664 | all reports of a heartbeat, in their order |
| JobServer.JobServer.FailLost | website-backend/ava/jobs/views.py:666-672 | exactly the jobs executing on the node that it did not list are failed, if it sent a list; any other row is unchanged, or a waiting one rolled up |
| JobServer.JobServer.Schedule | website-backend/ava/jobs/views.py:683-748 | at most one job is reserved, a right choice by the declarative rule; exactly the rows below it are deleted, so that it has no child, its own row changes in status, node and exception, and no other row changes |
| JobServer.JobServer.ReservedJobs | website-backend/ava/jobs/views.py:753-760 | every job reserved for the node, once each, with its class and parameters |
| JobServer.JobServer.PostClientDiscover | website-backend/ava/jobs/views.py:525-769 | the whole request, in the source's order, is one heartbeat step; the node row, and what the scheduler knows, are said of the request's fields and the nodes before it; the answer holds a job exactly when one is reserved or fits; reserving clears everything below the job; no job of a node silent for two hours stays unless it is reported |
| JobServer.JobServer.KillJob | website-backend/ava/jobs/views.py:368-388 | a running job becomes terminating and no other row changes; for any other job nothing changes and the request is refused |
| JobServer.JobServer.RestartJob | website-backend/ava/jobs/views.py:277-340 | a clone is one new ready row that asks for the same but no dependencies, required version or parent; an in-place restart is refused, changing nothing, if and only if a child is running or waiting, whatever the job's own status; otherwise exactly the rows below the job are deleted and it is ready without exception, progress and (unless wanted) node |
| JobServer.JobServer.RestartJobFailedChild | website-backend/ava/jobs/views.py:240-273 | exactly the failed children become ready, without exception, progress and (unless wanted) node, and the parent waits if there were any |
| JobServer.JobServer.DeleteJob | website-backend/ava/jobs/views.py:344-364 | a ready, successful or failed job goes with exactly the rows from which parent links lead to it; any other is refused and left |
| JobServer.RefusedByCount | website-backend/ava/jobs/views.py:317-319 | counting running or waiting children decides the refusal as the comment means it |
| Admin.DescendantsLeast | website-backend/ava/jobs/models.py:121 | what a cascading delete removes is the least set holding the given rows and closed under children |
| Admin.DescendantsLeadTo | website-backend/ava/jobs/models.py:121 | for every table, cyclic ones included, the cascade takes exactly the rows from which a chain of parent links leads to a given one |
| Admin.EverythingBelowGoes | website-backend/ava/jobs/views.py:321-336 | deleting a job's children and saving the job leaves exactly the job and the rows not below it, unchanged, and no other row names it as its parent |
| Admin.DeletedWithBelow | website-backend/ava/jobs/views.py:359 | deleting a job leaves exactly the rows that are neither it nor below it, unchanged |
| Admin.DeleteKeepsIntegrity | website-backend/ava/jobs/views.py:359 | after a delete no row names a missing parent |
| Admin.DeleteChildrenKeepsIntegrity | website-backend/ava/jobs/views.py:322-336 | nor after deleting a row's children and saving the row |
| Scheduler.PickJob | website-backend/ava/jobs/views.py:606-748 | filter, order, channel union and first match reserve a job if and only if one is eligible, and the one chosen has the highest priority of all eligible jobs |
| Scheduler.OrderByPriority | website-backend/ava/jobs/views.py:718-719 | the query's rows, each once, by descending priority, ties in any order |
| Scheduler.FirstMet | website-backend/ava/jobs/views.py:728-748 | the first job in priority order whose dependencies are all in success, or none if there is none |
| Scheduler.FreeMeansNoneRunning | website-backend/ava/jobs/views.py:691-704 | a channel can run if and only if no running job of the node is in it |
| NodeTable.TagFilterExact | website-backend/ava/jobs/views.py:603-607 | a job a node is eligible for has all its tags supported by the node if and only if each of its tags is carried by some node |
| NodeTable.UnknownTagsIgnored | website-backend/ava/jobs/views.py:606-607 | eligibility depends only on the tags that some node carries: the others may be added or removed without effect |
| NodeTable.UnknownTagRunsAnywhere | website-backend/ava/jobs/views.py:606-607 | one node carrying one tag, and one ready job asking for another: the node is eligible and the scheduler gives it the job |
| NodeTable.ViewOfRequest | website-backend/ava/jobs/views.py:541-607 | what the request stores and what the scheduler goes by, field by field from the request and the nodes before it: the version sent or 0, the restart flag until it is reported, the GPU count and tags sent or those known, and as excluded exactly the tags it lacks and others carry |
| NodeTable.RequestIsHandedAJob | website-backend/ava/jobs/views.py:674-760 | for every table, node table and request: the answer holds a job if and only if the node accepts work and is not a stopped cloud machine, and a job is reserved for it or, with no restart pending, some job fits; any job in it was reserved or is one of the highest priority that fit, fitting being said of the request and the rows alone |
| NodeTable.LightClasses | website-backend/ava/jobs/views.py:689-690 | the light channel is exactly the two classes named |
| JobServer.OverdueIsFailed | website-backend/ava/jobs/views.py:508-514 | after a request, no job that was executing on a node not seen for two hours is left in another status than failed, unless the request names it |
| Heartbeat.RowEffect | website-backend/ava/jobs/views.py:612-672 | what one heartbeat does to each stored row before scheduling, by whether it was finished, listed, dead or lost, in this precedence |
| Heartbeat.NewRowEffect | website-backend/ava/jobs/views.py:630-645 | each row a heartbeat creates has a new key and is a child of a job reported in it, ready unless itself reported |
| Heartbeat.ExecutingIsListed | website-backend/ava/jobs/views.py:666-672 | after the lost jobs are failed, every job executing on the node was listed by it |
| Heartbeat.NoDuplicateLaunch | website-backend/ava/jobs/views.py:612-760 | for every table and request, no job whose id had been handed out and that is reported running or finished is among the jobs to launch |
| Heartbeat.NotGivenBackIff | website-backend/ava/jobs/views.py:612-760 | the condition is exact: for every table, whatever node reports the id, running or finished, never gets it to launch if and only if the id had been handed out or the table has no row |
| Heartbeat.UnissuedIdIsLaunched | website-backend/ava/jobs/views.py:612-760 | for every table, every stored job and every id not handed out yet, a request that lists the id while that job yields children enough has the child with that id launched on the node that lists it |
| Heartbeat.BeatAfterSettle | website-backend/ava/jobs/views.py:728-748 | every row the scheduler leaves is as it was, but the one it picked, which was ready and is reserved for the node without an exception |
| Heartbeat.TerminatingIsNamed | website-backend/ava/jobs/views.py:610 | a job terminating when its node's heartbeat arrives is named in the answer |
| Heartbeat.KillListExact | website-backend/ava/jobs/views.py:762-767 | the answer to a node that is not overdue names exactly the jobs terminating on it when it asked, and none if it is given no work |
| Heartbeat.TerminatingSticks | website-backend/ava/jobs/views.py:612-672 | a terminating job stays so while its node lists it, ends when reported, and is failed by the first heartbeat that does neither |
| JobClient.JobContainer.Wrapper | job_client/job_client.py:206-237 | a job that ends moves from running to finished, other results staying: with what its process said and its last status, with "Terminated by server" if it was told to stop whatever it said, and with "Job process terminated abnormally" if it said nothing |
| JobClient.JobContainer.TerminateJob | job_client/job_client.py:239-242 | exactly the named job, if running, is told to stop |
| JobClient.JobContainer.SubmitJob | job_client/job_client.py:244-257 | raises if and only if the id is already running, and otherwise adds it |
| JobClient.JobContainer.BuildPayload | job_client/job_client.py:375-377 | built undisturbed, the payload names every running job and carries every finished result once, gives each job's current status as its progress, and is one of the payloads the exchange and run theorems allow |
| JobClient.JobContainer.HandleAnswer | job_client/job_client.py:394-422 | exactly the results sent are dropped, also if it raises; every job received is launched, and exactly the named jobs are told to stop, every other instance staying as it was or starting afresh; it raises if and only if an id is already running, and then the jobs before it are launched and nobody is told to stop |
| Agreement.OneExchangeAgrees | website-backend/ava/jobs/views.py:612-760 | from any table, any client state and any payload built from it, jobs ending meanwhile, after one delivered exchange the client holds exactly the jobs the server has reserved, running or terminating on it, plus those listed and not reported finished that the server has deleted or placed elsewhere |
| Agreement.FinalUnlessReported | website-backend/ava/jobs/views.py:612-661 | what becomes of a job already in success or failed: the outcome of its last report if reported finished, otherwise running if listed with progress, otherwise unchanged |
| Agreement.PayloadCoverage | job_client/job_client.py:375-377 | under any interleaving of worker threads with the three reads, every job held when the build began is listed or reported, and nothing else is |
| Agreement.BuiltPayloadCovers | job_client/job_client.py:375-377 | the payload of any such interleaving is one that the exchange and run theorems allow |
| Agreement.CoveredJobIsNotLost | website-backend/ava/jobs/views.py:666-672 | a job the payload names is never failed as lost |
| Agreement.HeldJobIsNotLost | job_client/job_client.py:375-377 | joined: in any interleaving and for any table, no job held when the build began is failed as lost |
| Farm.StepIsSafe | website-backend/ava/jobs/views.py:277-762 | every step of the farm, lossy or not, with payloads that jobs ending meanwhile have torn, keeps parents present, each client coherent and answers disjoint from what is held |
| Farm.RunIsSafe | job_client/job_client.py:367-425 | every state of every run, lossy or not, is safe in that sense |
| Farm.LaunchNeverRepeats | job_client/job_client.py:247-248 | in every run, with requests and answers lost, clients crashing and jobs restarted or deleted, the uniqueness check never fires |
| Farm.CrashRecovers | website-backend/ava/jobs/views.py:666-760 | in any safe state of any run: after a crash of a node and its next exchange, everything it was executing has failed and it holds exactly the jobs reserved for it |
| Farm.LostAnswerComesAgain | website-backend/ava/jobs/views.py:753-760 | in any safe state of any run: after a lost answer the node holds what it held, and its next exchange agrees again but for its strays; what the lost answer carried and is still active on the node, it now runs |
| Farm.UserSteps | website-backend/ava/jobs/views.py:240-364 | a restart, clone, restart of failed children and delete are among the steps of a run exactly as the server performs them |
| ReliableFarm.StepKeepsInv | website-backend/ava/jobs/views.py:525-769 | every reliable step, kill included, keeps agreement, channel capacity and dependency order together |
| ReliableFarm.ClientsAgree | website-backend/ava/jobs/views.py:612-760 | in every reliable run, between exchanges, a client holds exactly the jobs reserved, running or terminating on its node |
| ReliableFarm.ChannelCapacity | website-backend/ava/jobs/views.py:689-748 | in every reliable run a node has at most one job reserved or running in each channel, although reserved jobs are not counted |
| ReliableFarm.DependencyOrder | website-backend/ava/jobs/views.py:732 | in every reliable run a job past ready has all its dependencies, direct and indirect, in success |
| ReliableFarm.StepMoves | website-backend/ava/jobs/views.py:612-746 | in a reliable step every job stays or moves along created, ready, reserved, running, terminating, waiting, ended |
| ReliableFarm.StatusesOnlyAdvance | website-backend/ava/jobs/models.py:117 | over any stretch of a reliable run no job goes back, and success and failed are absorbing |
| ReliableFarm.KilledIsNamed | website-backend/ava/jobs/views.py:368-388 | in every reliable run, a job killed while it runs on a node is in the kill list of the answer to that node's next request, if the node accepts work, whatever happens in between |
| ReliableFarm.StaysTerminating | website-backend/ava/jobs/views.py:612-672 | no reliable step but a request of its own node changes a terminating job |
| FirstJob.JobCanBeDone | website-backend/ava/jobs/views.py:525-769 | for every job without parent and dependencies, with any tags, there is a reliable run that launches it and ends with its row in success, its progress stored and the node idle and empty |
| ByteOrder.LittleEndianRoundTrip | capture-node/source/video_writer_ava.cpp:242 | an integer that fits its field is read back from its bytes |
| AvaFormat.WordsRoundTrip | capture-node/raw_file_format_readers.py:213-216 | a list of 64-bit offsets is read back from its bytes |
| AvaFormat.SlotContents | capture-node/source/video_writer_ava.cpp:236-250 | packet i's slot holds its offset and every further slot up to the next packet's holds zero |
| AvaFormat.PositionsAdvance | capture-node/source/video_writer_ava.cpp:236-250 | the packets' slots are strictly increasing, start at zero and cover the index |
| AvaWriter.AvaVideoWriter.WritePacket | capture-node/source/video_writer_ava.cpp:125-135 | the file grows by the packet and the record of times and sizes keeps step with it |
| AvaWriter.AvaVideoWriter.WriteZeros | capture-node/source/video_writer_ava.cpp:246-247 | as many zero words as the loop's bound, none if it is negative |
| AvaWriter.AvaVideoWriter.WriteIndex | capture-node/source/video_writer_ava.cpp:232-250 | the index loop appends the words of the specified index |
| AvaWriter.AvaVideoWriter.Close | capture-node/source/video_writer_ava.cpp:223-258 | the closed file is the specified header, packets and index |
| AvaWriter.HeaderPatched | capture-node/source/video_writer_ava.cpp:252-254 | patching the offset changes that field alone: packets, index and other fields stay |
| AvaReader.AvaSequenceFileReader.GetFrameOffsetSkip | capture-node/raw_file_format_readers.py:227-232 | the loop, with Python's negative indices, agrees with the recursive skip |
| AvaReader.AvaSequenceFileReader.ComputeFrameSize | capture-node/raw_file_format_readers.py:234-241 | the size is the distance from the frame's offset to the next one's, or to the index |
| AvaReader.AvaSequenceFileReader.ReadOneFrame | capture-node/raw_file_format_readers.py:256-264 | indices out of range raise, and missing ones too for a strict reader |
| AvaReader.OpensAsWritten | capture-node/raw_file_format_readers.py:167-222 | opening a written file gives back every header field and the whole index |
| AvaReader.SkipBackToOwner | capture-node/raw_file_format_readers.py:227-232 | the backward skip stops at the owning packet's own slot and so never passes slot zero |
| AvaReader.SkipOnToNext | capture-node/raw_file_format_readers.py:236-240 | the forward skip stops at the next packet's slot, or runs off the end after the last |
| AvaReader.ReadsOwnersBytes | capture-node/raw_file_format_readers.py:243-254 | for every list of packets and every slot, the bytes read are those of the packet at the last non-zero slot not after it |
| AvaReader.RoundTrip | capture-node/raw_file_format_readers.py:167-264 | writer and reader together: every header field (a size of 2^31 or more as the negative number it is read as), the offset and length of the index and, at every slot, the owning packet's bytes; a strict reader raises exactly at slots that are not a packet's own |
| AvaReader.OwnSlot | capture-node/source/video_writer_ava.cpp:241-242 | every packet owns its own slot |
| AvaReader.AnySlotRead | capture-node/raw_file_format_readers.py:227-264 | for any index, written by this writer or not: asking raises out of range, at a zero if strict, and when nothing is recorded up to the slot; otherwise the bytes from the last offset up to the slot to the next one after it, or to the index, are read |
| AvaIndex.ExtraFramesOnTicks | capture-node/source/video_writer_ava.cpp:238-245 | with times within a quarter tick, the truncated product counts exactly the missed ticks |
| AvaIndex.PositionOnTicks | capture-node/source/video_writer_ava.cpp:236-250 | no drift: the slots of the first packets reach exactly to the tick of the last of them |
| AvaIndex.IndexLength | capture-node/raw_file_format_readers.py:210 | the index has one slot for every tick from the first packet's to the last's |
| AvaIndex.TickOwner | capture-node/source/video_writer_ava.cpp:241-247 | a tick belongs to the first packet taken at or after it |
| AvaIndex.FrameAtTick | capture-node/raw_file_format_readers.py:256-264 | the tick of a recorded frame reads that frame; strictly it raises exactly when the tick before was missed |
| AvaPipeline.StepConserves | capture-node/source/video_writer_ava.cpp:95-139 | under every step of producer, encoders and writer, written, in-flight and queued frames in this order are the accepted ones |
| AvaPipeline.StepCountsFrames | capture-node/source/video_writer_ava.cpp:166-178 | every frame buffer allocated is held, queued, being encoded or recycled |
| AvaPipeline.StepCountsPackets | capture-node/source/video_writer_ava.cpp:180-196 | every packet buffer allocated is in flight or recycled, and the in-flight counter counts them |
| AvaPipeline.WrittenInOrder | capture-node/source/video_writer_ava.cpp:95-139 | at any moment what is written is a prefix of what was accepted, each packet with its frame's time and its image encoded; once joined it is all of it, and appended frames are written or dropped |
| AvaPipeline.DroppedOnlyWhenFull | capture-node/source/video_writer_ava.cpp:198-220 | a step drops a frame only when 300 items are queued, and then the one being appended; otherwise it keeps every frame |
| AvaPipeline.NothingDropped | capture-node/source/video_writer_ava.cpp:198-220 | in a run whose queue is never full every appended frame is accepted, in order |
| AvaPipeline.AcceptedInOrder | capture-node/source/video_writer_ava.cpp:198-220 | in any run the accepted frames are a subsequence of the appended ones |
| AvaPipeline.BuffersBounded | capture-node/source/video_writer_ava.cpp:260-269 | at most 300 + 32 + 1 frame buffers are ever allocated and both usage figures stay within 100 |
| AvaPipeline.EndToEnd | capture-node/source/video_writer_ava.cpp:95-258 | with a lossless codec, every frame the pipeline accepted is read back from the closed file at its own slot, in order |
| CopyFiles.CopyJob.SafeCopyFile | job_client/jobs/archive.py:72-84 | touches no file but the destination, which it leaves as it was, removed, or holding a front of the source; if it completes, the destination holds the source's bytes for any block size; stopped after its first operation, or copying a file to itself, it leaves the destination removed |
| CopyFiles.CopyJob.CopyBlocks | job_client/jobs/archive.py:79-84 | the block loop copies the whole content or stops with a front of it written, touching only the destination |
| CopyFiles.CopyJob.CopyEntry | job_client/jobs/archive.py:164-194 | nothing but the destination is ever touched; an entry whose folder cannot be made raises; one whose source is gone completes if the destination is there and raises if not, touching nothing; one that nothing hinders is copied whole, unless it is its own destination: then it raises and the file is lost |
| CopyFiles.CopyJob.CopyEntries | job_client/jobs/archive.py:162-196 | for any list the first loop leaves the copies of all entries, or of those before the one where it stopped or raised, and that one part way; unhindered it ends at the end of the list or at the first entry that is its own destination |
| CopyFiles.CopyJob.DeleteSources | job_client/jobs/archive.py:198-206 | only the sources of a front of the list go, all of them but those that cannot be removed; it completes unless it is stopped, and then exactly the removable sources of the list are gone and every other file is as it was |
| CopyFiles.CopyJob.Run | job_client/jobs/archive.py:152-208 | for any list: what a run may leave at any stop, what it leaves when it completes, and what it leaves unhindered, which takes a bounded number of operations; if destinations are apart, then stopped at any step or raising, every listed file's original content is at its source or its destination, a completed run leaves it under its name in its folder, and if folders can be made and destinations removed the run does not raise, whatever earlier runs left; without deletion the sources stay |
| CopyFiles.CopyJob.Retry | job_client/jobs/archive.py:152-208 | with destinations apart, the same for any number of runs, each stopped anywhere, none of which raises if folders can be made and destinations removed |
| CopyFiles.TargetIff | job_client/jobs/archive.py:174 | for every entry the destination is its folder, one slash unless the folder is empty or ends in one, and what follows the last slash of its source |
| CopyFiles.LeavesSafe | job_client/jobs/archive.py:152-208 | with destinations apart, nothing that a run may leave has lost a listed file, even a run that finds earlier ones half done |
| CopyFiles.UndisturbedLoses | job_client/jobs/archive.py:74-206 | for every list that is not apart there are contents of which the unhindered run with deletion loses one |
| CopyFiles.LosesNothingIff | job_client/jobs/archive.py:152-208 | runs with deletion keep every listed content at its source or destination, for all contents and at every stop, if and only if no destination is a source and different sources have different destinations |
| CopyFiles.LastOneWins | job_client/jobs/archive.py:162-194 | where entries share a destination it ends with the content of the last of them |
| CopyFiles.DeliversIffDistinct | job_client/jobs/archive.py:174 | completed copies deliver every file, for all contents, if and only if different sources have different destinations |
| Camera.CameraDevice.OnImage | capture-node/source/cameras.cpp:151-162 | the frame's time and distance to the last one, and the recording step made with them |
| Camera.CameraDevice.RecordImage | capture-node/source/cameras.cpp:391-442 | one frame is one step of the recording machine |
| Camera.CameraDevice.StartRecording | capture-node/source/cameras.cpp:455-480 | a start while recording changes nothing; otherwise two empty recorders wait with the hold set and three seconds of delay |
| Camera.CameraDevice.StopRecording | capture-node/source/cameras.cpp:482-585 | the summary holds what each recorder held, and recording, wait and hold end; with no recording the summary is emptied |
| Camera.CameraDevice.TriggerBySoftware | capture-node/source/cameras.hpp:169 | hold and wait end together |
| Camera.CameraDevice.RemoveRecordingHold | capture-node/source/cameras.cpp:450-453 | the hold ends, nothing else |
| Camera.RecordingTrace | capture-node/source/cameras.cpp:391-442 | for every sequence of frames, hold removals and triggers, both recorders hold the same contiguous block of delivered frames from the first that begins the recording, cut at the requested number, where the recording stops by itself |
| Camera.WaitingInvariant | capture-node/source/cameras.cpp:394-410 | while nothing has begun, the remaining delay is three seconds less the frame time since the hold was removed |
| Camera.NothingBeforeTrigger | capture-node/source/cameras.cpp:394-412 | until a frame begins the recording, nothing is recorded |
| Camera.StoppedByHand | capture-node/source/cameras.cpp:482-585 | a recording stopped before the requested number is reached keeps in both summaries every frame since it began |
| Camera.TimeoutIff | capture-node/source/cameras.cpp:394-410 | the timeout is reported if and only if the frame that began the recording exceeded it while a trigger was waited for |
| Audio.AudioRecorder.WriteWord | capture-node/source/audio.cpp:85-92 | the shifting loop writes the little-endian bytes of the word |
| Audio.AudioRecorder.AddFrame | capture-node/source/audio.cpp:54-68 | the file grows by the bytes of the live samples if it is open |
| Audio.AudioRecorder.Flush | capture-node/source/audio.cpp:108-115 | the live samples move to the writer and the buffer is empty |
| Audio.AudioRecorder.RecordCallback | capture-node/source/audio.cpp:142-183 | for a callback of any size the stream grows by exactly its samples, or by as many zeros if it has none, and the total by its frames; the loop ends |
| Audio.AudioRecorder.RecordCallbacks | capture-node/source/audio.cpp:142-183 | for every sequence of callbacks the stream grows by the concatenation of what they deliver and the total by the sum of their frames |
| Audio.DeliveredLength | capture-node/source/audio.cpp:174-176 | what callbacks deliver is two samples for each frame of the total |
| Audio.AudioRecorder.Stop | capture-node/source/audio.cpp:252-272 | the whole stream is in the writer at the end |
| Audio.SamplesComeBack | capture-node/source/audio.cpp:85-92 | signed 16-bit samples are read back from the bytes written |
| Http.HttpResponse.Read | capture-node/source/httpserver.cpp:246-294 | the two loops and the plain branch compute the specified outcome, also where reading hangs or throws |
| Http.HttpResponse.ReadHeader | capture-node/source/httpserver.cpp:256-265 | the header loop against its recursive form |
| Http.HttpResponse.ReadBody | capture-node/source/httpserver.cpp:267-287 | the chunk loop against its recursive form |
| Http.FirstLineRead | capture-node/source/httpserver.cpp:219-226 | the first line's three words |
| Http.ShortFirstLine | capture-node/source/httpserver.cpp:219-226 | a first line of fewer words, with any white space after them, leaves the other parts as they were |
| Http.FieldRead | capture-node/source/httpserver.cpp:227-238 | a field is stored under its name in lower case, without any white space before and after its value, up to a line feed if it holds one, and no other field changes |
| Http.NamelessRead | capture-node/source/httpserver.cpp:227-238 | a line without a colon is stored as a field without a value |
| Http.LowerIs | capture-node/source/httpserver.cpp:235 | names are stored with every capital letter in lower case and every other character as it is |
| Http.ChunkedIff | capture-node/source/httpserver.cpp:309-315 | for every list of fields: a message is read as chunked if and only if the last field of that name, in any letter case, says so |
| Http.ChunkedIsFound | capture-node/source/httpserver.cpp:309-315 | whatever lines come before, a message whose last field announces chunks, in any letter case of the name, is read as chunked |
| Http.ChunkedRoundTrip | capture-node/source/httpserver.cpp:246-287 | any list of non-empty chunks below 2^31 bytes, of any characters, with any size lines that parse to their sizes and any trailer, is read back as their concatenation |
| Http.PlainRoundTrip | capture-node/source/httpserver.cpp:288-293 | a body that is not chunked comes back unchanged |
| Http.OldFieldsForgotten | capture-node/source/httpserver.cpp:253 | reading a message does not depend on the fields of one read before |
| Http.SizeRoundTrip | capture-node/source/httpserver.cpp:277 | the hexadecimal size lines a server writes are read back as the sizes |
| Http.DigitIff | capture-node/source/httpserver.cpp:277 | hexadecimal digits count in either letter case |
| Http.ParseSizeIs | capture-node/source/httpserver.cpp:277 | any size line: white space, a sign, a prefix, digits and whatever follows them give the digits' value, counted back from 2^64 after a minus; more than 64 bits throw |
| Http.NoSize | capture-node/source/httpserver.cpp:277 | a line with no digit where the number should start throws |
| Http.SizeLineOutcome | capture-node/source/httpserver.cpp:269-286 | only the low 32 bits of a size count, as a signed number: negative ones throw, zero ends the body, and a positive one is the number of characters read |
| Http.TruncatedChunkHangs | capture-node/source/httpserver.cpp:269-286 | a body cut off inside a chunk's data makes the loop run for ever, for any valid size line |
| HttpCuts.HeaderEndsIff | capture-node/source/httpserver.cpp:256-265 | on any text the header loop ends if and only if some line start is followed by a carriage return or by nothing |
| HttpCuts.NoReturnHangs | capture-node/source/httpserver.cpp:256-265 | a non-empty text without a carriage return is read for ever |
| HttpCuts.ChunksHangIff | capture-node/source/httpserver.cpp:267-287 | on any text the chunk loop never ends if and only if some chunk start is followed by a size line that announces data, cut off or not, and by no whole chunk |
| HttpCuts.HeadCut | capture-node/source/httpserver.cpp:256-265 | a header cut anywhere: the loop ends at a line start or in the empty line, with the lines so far, and otherwise never |
| HttpCuts.BodyCut | capture-node/source/httpserver.cpp:267-287 | a chunked body cut anywhere, with any valid size lines: the whole chunks are read, and the front of the next item decides between an end, an exception and a loop for ever |
| HttpCuts.MessageCut | capture-node/source/httpserver.cpp:246-294 | what reading any front of any chunked message comes to |
| HttpCuts.StandardCut | capture-node/source/httpserver.cpp:267-287 | with the size lines a server writes: reading never ends if and only if the cut is inside a chunk, ends with all the data if and only if all chunks are there, and ends with less and no error if and only if the cut is at the start of a chunk |
| HttpCuts.StandardHeadCut | capture-node/source/httpserver.cpp:256-293 | cut in the header: never ends if and only if the cut is inside a line that is not empty; otherwise no data, and the copy from before the message if no chunks were announced yet |
| HttpCuts.FrontOfSize | capture-node/source/httpserver.cpp:277 | the front of a standard size line parses to a size that is not zero |
| ShotName.UniqueShotName | website-backend/ava/capture/views.py:737-756 | the name is not taken, it is the first free one of its series, and at most one more name is tried than there are shots |
| ShotName.Pigeonhole | website-backend/ava/capture/views.py:752-754 | numbered names cannot all be taken beyond the number of shots |
| ShotName.NumberOfPadded | website-backend/ava/capture/views.py:753 | padded numbers are read back, so they are injective |
| ShotName.SeriesContinues | website-backend/ava/capture/views.py:747-750 | a generated name is parsed back into its own prefix and number, so asking again numbers on |
| ShotName.NamesAreClean | website-backend/ava/capture/views.py:739 | cleaning a generated name changes nothing |
| ShotName.FilterKeeps | website-backend/ava/capture/views.py:739 | cleaning keeps the allowed characters of any name, in their order, and nothing else |
| ShotName.NothingLeft | website-backend/ava/capture/views.py:741-742 | a name with no allowed character becomes "Shot" |
| ShotName.PaddedWidth | website-backend/ava/capture/views.py:753 | numbers have three digits, or as many as they need, without a leading zero |
| ShotName.TriedAfterName | website-backend/ava/capture/views.py:744-754 | for a name that does not end in a digit the names tried are itself and then it with "_000", "_001" and so on |
| ShotName.TriedAfterNumber | website-backend/ava/capture/views.py:747-754 | for a name that ends in a number the names tried after it go on from that number, in three digits, without an underscore |

## Left out

- In-place restart of a job a client still holds, the two-hour cleanup, deletes and crashes are steps of every run in `Farm`, but break the agreement of `ReliableFarm` by the design of the API; only `OneExchangeAgrees` and `CrashRecovers` speak of the state after them.
- Liveness of roll-up: a parent set to waiting after its children have ended is not looked at again, and duplicate reports of a yielding job after a lost answer create its children again.
- Direct REST changes of arbitrary fields, parent cycles made that way, permissions, created-by, timestamps, notifications, e-mail and cloud calls; what the cloud provider says is a parameter.
- The old list format of yielded children, the new node row for a child's unknown machine, and letter case of machine names.
- The restart flag in the answer, and the client's restart that follows it.
- Requests without a status, and reports of a failure without an exception text, which raise in the server half way.
- A job whose class cannot be loaded (its result stands even if it is told to stop), and a result lost while it is gathered.
- Deadlock freedom of the writer: its recycle queues are bounded and block. LZ4 and TBB are parameters: a lossless codec, in-order serial stages and at most 32 tokens.
- AvaVideoWriter timestamps are exact reals, not doubles; the conversion to int of a gap of more than 2^31 frames, a failed write, and files of 2^64 bytes or more are not modelled.
- AvaSequenceFileReader: text decoding of the bayer letters, an empty read of the index, decompression and colour processing. An image width or height of 2^31 or more comes back negative, as `HeaderIsBack` says.
- CopyJob: paths have forward slashes and are compared as strings, so links and two spellings of one path are not captured. Reading failures and full disks are stops of the step budget; the end-of-file test at archive.py:80 is an empty read, its meaning in Python 2; progress messages.
- CameraDevice: its recorders are values that keep what was appended; the writers behind them, their dropped frames, the metadata file, preview images and images of more than one channel are left out; the times 0.2 and 3.0 are exact.
- AudioRecorder: the WAV headers and their patching, and the device stream; the two nested loops over frames and channels are one loop over samples.
- HttpResponse: content_length, addContent, messages of 2^31 bytes or more without chunks, and memory exhaustion; a chunk size that becomes a negative int throws.
- UniqueShotName: the session's names are a fixed set while the name is chosen; two requests at once may choose the same name.
- Pixel processing, base64, camera drivers, hardware sync, sockets, the web framework's serializers and migrations, and the front end.
