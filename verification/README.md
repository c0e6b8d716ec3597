# Verified model of the stream processor, its file system and its membership

This project models the distributed core of the repository in Dafny and proves what its documentation
and tests promise of it: exactly-once stream processing, replicated append-only files, failure detection,
and the leader's bookkeeping. `dafny verify dfyconfig.toml` checks all of it.

## What is modelled

**The stream pipeline** (RainStorm). `Pipeline` is one state machine for sources, any number of stateless
stages and a counting last stage. A step is one atomic action of one task: a source skips a line, sends,
resends, takes an acknowledgment or ends; a task receives with its duplicate check, runs its operator,
forwards and resends, takes an acknowledgment, hands the id to its state log, records it, acknowledges,
handles an end marker, or crashes and restarts with any part of its log; messages and acknowledgments may
be delayed, reordered, repeated or lost. A job is arbitrary: any lines, any operators, any hash, any number
of stages and tasks.

- `PipelineSafety` proves what every step keeps. Its centre: an acknowledgment travels upstream only for a
  tuple that has been counted or filtered out.
- `PipelineEnds` does the same for end markers and their counters.
- `PipelineResults` draws the conclusions: no line is ever counted twice, an acknowledged line is counted
  exactly once, and whatever a counting task flushes at its first marker is its share of the sequential
  group-by. The last holds exactly if a stateless stage precedes the count or there is one task per stage:
  `AlwaysFinalIff`, with a run that fails otherwise (`EarlyFlush`).
- `PipelineDrain` treats runs without crashes: once a marker leaves stage 1, every line is recorded at every
  stage it reaches, whatever was lost and resent. `PipelineClean` treats runs without any failure: nothing is
  in flight anywhere by then.
- `PipelineStuck` and `PipelineProgress` prove that a job comes to its end: however the tasks are scheduled,
  a run without failures has a bounded number of steps, and where it can go no further every counting task
  has flushed and holds its share of the group-by.
- `PipelineResume` does it after failures: whatever was lost, repeated or crashed, resends and ordinary steps
  bring the job to that end if and only if no task has forgotten a marker in a crash before it sent its own
  (`CanFinishIff`).
- `Operators`, `GrepCount`, `SourceTask`, `OperatorTask` and `StateLog` are the imperative parts around it:
  the filter with its CSV reader, the counter, the partition of the lines, the serving loop with duplicate
  detection, and the batching log writer on top of the block store. `GrepCountIsGroupBy` puts filter and
  counter together.

**Replicated files** (HyDFS). `FileNames` says in which directory a file is kept and when two names meet in
one. `BlockStore` keeps files of numbered blocks with per-client sequences and merges them with an in-place
exchange sort. `Merging` runs the merge over all replicas; `MergeRuns` follows whole histories of appends and
merges. `Ring`, `Durability` and `Rereplication` treat placement and repair, `NameClash` the names for which
repair does not work. `CreateChain` is the pipelined create: what an acknowledgment means, and that one comes.

**Membership**. `Membership` is the list with its map, permuted order and index; `RoundRobin` and `Timeouts`
prove the detection bounds on top of it. `Swim` has the ping detector with its locked sections and lets
information and pongs arrive between any two of them; `SwimTrace` says what a verdict rests on.

**The leader**. `Schedule` lays a job out, `Routing` keeps its addresses through scaling and restarts, and
`Completion` decides when it has ended.

## Where the code and its documents differ

- Per-client append order (docs/REQUIREMENTS.md:57-58) survives repeated merges exactly for clients that do
  not sort before "merged_content", the client the merged block is stored under:
  `MergeRuns.IssueOrderIffClientsAtOrAfterMerged`.
- The repository says files are re-balanced when machines join (README.md:73, README.md:220). A newcomer
  that comes first on the ring has nothing to scan, so the scan does not bring it the files:
  `Durability.JoinRepairsIff`.
- Files are promised to survive two simultaneous failures (docs/REQUIREMENTS.md:54-56). That holds exactly
  for names that each have a directory of their own on the top level. A file is kept in the directory named
  like it without its extension, so that "a.txt" is refused where "a.log" is; and the scan does not look into
  the nested directories that names with slashes get, although the file system is called flat:
  `NameClash.AlwaysSurviveIffApart`, with the failing runs in `SharedIsRefused` and `NestedIsLost`. Deleting a
  file deletes what shares its directory: `BlockStorage.BlockStore.DeleteFile`.
- A pong that is handled after a ping was sent but before its entry is made is ignored, and the member can be
  declared failed although it answered: `SwimTrace.PongIsSafeIffNotInFlight`, with the run in `EarlyPongFails`.
- With suspicion on, a member whose last news arrived suspected is failed after Tfail already, without
  suspicion it is never failed by the timer: `Timeouts.FullGraceIff`, `Timeouts.SuspectedFailsIffSuspicion`.
- The end of a run compares two numbers. Ids of no task count too and can end it early, and a removed task
  that is added again can keep it from ending: `Completion.EndsIffOutweighed`, `StraysEndRun`,
  `ReadditionKeepsFromEnding`.
- A node that coordinates a create and still remembers an acknowledgment target of an older create of the name
  passes the acknowledgment on to that one: `CreateChain.CreateComesTo`, `StaleTargetIsAnswered`.
- A task that crashes after counting some end markers and before sending its own never counts to the full
  number again, and the job stays unfinished, whatever is resent: `PipelineResume.CanFinishIff`,
  `CrashImpairs`. Only the 5 s timeout, which is not modelled, may still let it go on without the rest.
- A silent member is not noticed while pings to it follow each other within TpingFail, because each ping
  replaces the entry of the one before: `SwimTrace.FreshNeverFails`.
- A counting stage placed directly behind several sources flushes too early: `PipelineResults.AlwaysFinalIff`.
- Two tasks of the initial schedule can get the same address: `Schedule.AddressesDistinctIff`.
- A failed member that shows life again is alive in the map but stays out of the list until the next rebuild:
  `MembershipList.ListCompleteIff`. Heartbeat counters can go down: `MembershipList.CounterDropsIff`.
- Adding a task while no worker is alive leaves the count ahead of the routing table:
  `Routing.Leader.ScaleStage`. A restart with a failure report that names an outdated worker leaves the
  table wrong: `Routing.Leader.HandleTaskFailure`.

## Model

| member | source | states |
|---|---|---|
| PipelineSafety.StepKeepsSafe | pkg/rainstorm/api.go:476-661 | every atomic step of any source or operator task, crash, restart or loss keeps the safety invariant: tuples are where they belong, each acknowledgment stands for a tuple that is counted or filtered out, counts equal the execution history |
| PipelineSafety.NotYetCounted | pkg/rainstorm/api.go:614-654 | a tuple that a counting task is about to execute has never been counted before, whatever was resent or recovered |
| PipelineSafety.RunsAreSafe | pkg/rainstorm/api.go:412-523 | the safety invariant holds in every reachable state |
| PipelineEnds.AllSeen | pkg/rainstorm/api.go:311-383 | when a middle task has counted n markers, they came from n different upstream tasks, none missing |
| PipelineEnds.TakeMarkerKeeps | pkg/rainstorm/api.go:304-410 | handling a marker keeps the marker invariant: a marker beyond the sources exists only when all sources have ended |
| PipelineEnds.RunsKeepEnds | pkg/rainstorm/api.go:304-410 | the marker invariant holds in every reachable state, and what was flushed equals the complete counts |
| PipelineResults.NeverCountedTwice | pkg/rainstorm/api.go:614-661 | in every run, with any crashes, losses and resends, a line is counted at most once, only if it passes the operators, and only where its key hashes to |
| PipelineResults.AckedMeansCountedOnce | pkg/rainstorm/worker.go:484-581 | a line whose acknowledgment has reached its source has been counted exactly once if it passes the operators, else not at all |
| PipelineResults.GroupByCounts | ops/count/main.go:36-50 | the sequential group-by has for each key the number of lines to be counted under it |
| PipelineResults.FlushIsFinal | ops/count/main.go:21-31 | in every run, what a counting task flushes at its first marker is its share of the sequential group-by over the whole file |
| PipelineResults.EachKeyFlushedOnce | ops/count/main.go:52-71 | when all counting tasks have flushed, each key comes out of exactly one of them with its line count, and nothing else comes out |
| PipelineResults.EarlyFlush | ops/count/main.go:21-31 | counting directly behind two or more sources: a concrete run in which the first marker flushes too early |
| PipelineResults.AlwaysFinalIff | ops/count/main.go:21-31 | flushes at the first marker are right in all runs if and only if a stateless stage precedes the count or each stage has one task |
| PipelineDrain.StepIsDeep | pkg/rainstorm/api.go:476-523 | without crashes, every acknowledgment of a stage means its line is recorded at this and all later stages it reaches |
| PipelineDrain.MarkerMeansRecorded | pkg/rainstorm/api.go:311-383 | in every run without crashes, with any losses and resends, once a task of stage 1 or later has broadcast its markers every line is recorded at every stage it reaches |
| PipelineClean.StepIsTidy | pkg/rainstorm/api.go:476-523 | in runs without failures a line has per stage at most one message, handler or acknowledgment, and is awaited upstream |
| PipelineClean.MarkerMeansDrained | pkg/rainstorm/api.go:311-383 | without failures, once a task of stage 1 or later has broadcast its markers, nothing is in flight or in hand anywhere, and every line is recorded at every stage it reaches |
| PipelineClean.NothingAfterMarker | pkg/rainstorm/api.go:304-410 | without failures, no operator runs and no tuple is received after the first marker handled at stage 2 or later |
| PipelineStuck.StepLosesNothing | pkg/rainstorm/api.go:476-661 | in a step without failure a line that somebody waits for stays in flight to, in hand at, or acknowledged by the stage it is awaited from |
| PipelineStuck.RunsAreLogged | pkg/rainstorm/api.go:633-654 | in every run, with any failures, what a task knows as processed is in its state log or in the queue to it |
| PipelineStuck.StuckMeansFinished | pkg/rainstorm/api.go:304-410 | a run without failures in which no step is possible any more is finished: sources ended, nothing in flight or in hand, all lines recorded and in the state logs, all markers handled, every counting task flushed |
| PipelineProgress.StepStaysFine | pkg/rainstorm/api.go:476-661 | without failures a tuple is sent to a task at most once, and logged once, after it was sent to all stages before |
| PipelineProgress.StepAchieves | pkg/rainstorm/api.go:476-661 | every step without failure brings a tuple, a source, a log entry or a marker further, and takes none back |
| PipelineProgress.CleanRunsAreBounded | pkg/rainstorm/api.go:304-661 | under any scheduling a run without failures has a number of steps bounded by the job |
| PipelineProgress.CleanRunsCanEnd | pkg/rainstorm/api.go:304-661 | any run without failures can be continued to one that can go no further |
| PipelineProgress.JobsEndWithGroupBy | ops/count/main.go:21-31 | and such a run ends with every counting task having flushed exactly its share of the sequential group-by |
| PipelineResume.ResendSends | pkg/rainstorm/api.go:476-523 | whoever waits for a line at a stage can resend it, and then a message with the line as it arrives there is on its way |
| PipelineResume.StepStaysSound | pkg/rainstorm/api.go:304-661 | every step, failures included, keeps: safety, and that who has ended or counted all markers has sent its own |
| PipelineResume.AwaitedRises | pkg/rainstorm/worker.go:484-581 | a line awaited where nobody has it in hand is in hand there, or acknowledged to whoever waited, after a resend and at most two more steps |
| PipelineResume.CanFinishIff | pkg/rainstorm/api.go:304-661 | after any run, with any crashes, losses and repetitions, some continuation finishes the job if and only if no task has forgotten a marker in a crash before sending its own |
| PipelineResume.ResumesToGroupBy | pkg/rainstorm/api.go:476-523 | in particular any run without crashes can be continued by resends and ordinary steps to an end in which every counting task has flushed exactly its share of the group-by |
| PipelineResume.CrashImpairs | pkg/rainstorm/api.go:311-383 | a crash of a task that has counted a marker and not sent its own is such a case |
| PipelineResume.CrashForgets | pkg/rainstorm/api.go:703-762 | a restarted task has nothing in hand and knows exactly the ids read back; all other tasks keep everything |
| PipelineResume.RecoveredIsNotExecuted | pkg/rainstorm/api.go:614-627 | a resent line whose id was read back is acknowledged without being executed |
| Pipeline.CountedKeyIs | ops/grep/main.go:73-123 | the key a line is counted under is that of what all operators, in order, make of its tuple |
| GrepCount.GrepCountIsGroupBy | ops/grep/main.go:73-123 | for sources, filter and count: in every run in which all counting tasks flushed, each key has come from exactly one of them with the number of matching non-blank lines that have it in the column, columns being separated by commas outside quotes |
| GrepCount.GrepCountFinishes | ops/grep/main.go:73-123 | a run of it without failures that can go no further has flushed everywhere, with that result |
| Operators.ParseCSVLine | ops/grep/main.go:126-151 | the byte loop computes the fields of a line |
| Operators.CSVRoundTrip | ops/grep/main.go:126-151 | reading back a written line gives its fields, whichever were quoted, commas inside quotes included |
| Operators.FieldsAreColumns | ops/grep/main.go:126-151 | for any line, field c is made of the characters with c - 1 commas outside quotes before them, without quotes |
| Operators.KeyIsColumn | ops/grep/main.go:100-113 | the new key is the text of that column, empty beyond the last one, and the own key without a column |
| Operators.KeyIsCell | ops/grep/main.go:100-113 | for a written line it is the text of the cell, whichever cells were quoted |
| Operators.GrepOp.Process | ops/grep/main.go:73-123 | exactly the matching tuples are emitted, with id and value, under the text of the column; others are counted as filtered; markers pass |
| Operators.CountOp.Process | ops/count/main.go:19-51 | the first marker emits all counts before itself, later ones pass alone; a tuple raises the count of its key |
| Operators.CountOp.FlushCounts | ops/count/main.go:52-71 | the emitted tuples list every counted key exactly once with its count, in some order |
| Operators.CountTupleReads | ops/count/main.go:57-68 | an emitted count reads back as its key, a comma and the number |
| Operators.CountTuplesDiffer | ops/count/main.go:57-68 | counts of different keys differ in id and in text |
| OperatorTask.OperatorTask.CountMarker | pkg/rainstorm/api.go:304-383 | markers are counted, and a broadcast happens exactly when the count first reaches the number of sources |
| OperatorTask.OperatorTask.Serve | pkg/rainstorm/api.go:562-661 | over a connection: every tuple acknowledged in order, the operator executed exactly for new ids, the log extended by exactly these, one broadcast at most |
| OperatorTask.EachNewIdOnce | pkg/rainstorm/api.go:614-654 | an id is executed if and only if it is new, and then once; the known ids grow by exactly these |
| OperatorTask.OutputsAre | pkg/rainstorm/api.go:629-648 | every executed tuple that passes the operator is forwarded once, in order, with its id and what the operator made of it |
| OperatorTask.EveryMarkerCounted | pkg/rainstorm/api.go:304-330 | every end marker is counted, unless a tuple is called like it |
| OperatorTask.ResendsChangeNothing | pkg/rainstorm/api.go:614-627 | resending any tuples sent before, in any order, causes no second execution |
| SourceTask.Partition | pkg/rainstorm/worker.go:360-374 | the loop collects the lines of one source, with their original numbers |
| SourceTask.EachLineOneSource | pkg/rainstorm/worker.go:367-374 | every line is sent by exactly one source, the one its index is congruent to |
| SourceTask.PartitionSteps | pkg/rainstorm/worker.go:367-374 | the k-th line of source i among n is line i + k * n, and the partition ends only at the end of the file |
| SourceTask.TupleIdsDiffer | pkg/rainstorm/worker.go:466-471 | tuple ids identify lines, also across sources |
| SourceTask.SourcesDiffer | pkg/rainstorm/worker.go:598-604 | different sources have different names and end markers |
| SourceTask.MarkerIdsDiffer | pkg/rainstorm/worker.go:598-604 | no tuple has the id of an end marker |
| StateLog.AppendWorker.Flush | pkg/rainstorm/api.go:837-874 | the buffered lines become one appended block, and the file lists exactly the logged ids |
| StateLog.AppendWorker.Run | pkg/rainstorm/api.go:876-894 | for any interleaving of lines, ticks and stop: file and buffer together hold all received lines in order; fewer than 50 wait; none after a stop |
| StateLog.FetchState | pkg/rainstorm/api.go:703-762 | a restart loads the parsed lines of the file, nothing if there is none |
| StateLog.LogRoundTrip | pkg/rainstorm/api.go:752-760 | parsing a log gives back the ids written to it, in order, for non-empty newline-free ids without outer white space |
| Text.TrimSpaceIs | pkg/rainstorm/api.go:752-760 | trimming takes exactly the white space at both ends |
| Text.SplitLinesIs | pkg/rainstorm/api.go:752-760 | splitting into lines is undone by joining and leaves no newline in a line |
| StateLog.TupleIdsAreGood | pkg/rainstorm/worker.go:466-471 | the ids of source tuples are of this kind |
| StateLog.LogThenRestart | pkg/rainstorm/api.go:827-894 | a worker followed by a restart: the loaded ids are a prefix of those received, at most 49 short, and complete after a stop |
| BlockStorage.BlockFileNamesDiffer | pkg/storage/blockstore.go:389-398 | block files of different numbers have different names |
| BlockStorage.AppendedPieces | pkg/storage/blockstore.go:338-412 | an append adds one block at the end with its client's next sequence number, and its bytes at the end of the file |
| FileNames.NamesMeetIff | pkg/storage/blockstore.go:47-51 | two names meet in one directory exactly if the second is the stem of the first with any extension, or without one |
| FileNames.BelowIffThrough | pkg/storage/blockstore.go:295-301 | a directory lies below another exactly if its path goes through it, component by component |
| FileNames.OccupiedIs | pkg/storage/blockstore.go:60-63 | a directory is there exactly if the path of some file goes through it |
| FileNames.RemovedIs | pkg/storage/blockstore.go:295-301 | exactly the files whose paths go through a directory go with it |
| BlockStorage.BlockStore.CreateFile | pkg/storage/blockstore.go:53-103 | a new file has one block with sequence 1; it is refused, and nothing changes, exactly if its directory exists, be it of another name, a nested one, or the root |
| BlockStorage.BlockStore.AppendFile | pkg/storage/blockstore.go:338-412 | appends to the file in the directory, creating an empty one with file id 0 first if there is no directory; fails exactly if there is one without a file |
| BlockStorage.BlockStore.ReadFile | pkg/storage/blockstore.go:106-130 | returns the blocks' bytes in block order |
| BlockStorage.BlockStore.GetAllBlocks | pkg/storage/blockstore.go:238-282 | returns the pieces of the file in block order, numbered from 1 |
| BlockStorage.CreatedPieces | pkg/storage/blockstore.go:53-103 | a created file has one piece, and is known by its name, ring hash and primary |
| BlockStorage.BlockStore.DeleteFile | pkg/storage/blockstore.go:295-301 | removes the directory of the file with all below it, so every file kept there or nested in it, and nothing else |
| BlockStorage.SortBlocks | pkg/storage/blockstore.go:170-186 | the in-place exchange sort leaves a permutation in (client, sequence) order |
| Text.LessIs | pkg/storage/blockstore.go:170-186 | the order of client ids: the first difference decides, a proper prefix comes first |
| BlockStorage.BlockStore.MergeFile | pkg/storage/blockstore.go:158-235 | the file's blocks become a sorted permutation of the given ones, renumbered, with the sequence map rebuilt |
| BlockStorage.RebuiltIsHighest | pkg/storage/blockstore.go:213-221 | the rebuilt sequence map holds each client's highest sequence |
| BlockStorage.MergedPieces | pkg/storage/blockstore.go:158-235 | after a merge the metadata, the block files and the sequence map agree, and the pieces are those merged |
| Merging.KeyInjective | main.go:2729 | the deduplication key is injective, also for clients that contain colons |
| Merging.SortedIsUnique | main.go:2657-2807 | a set of agreeing blocks has only one strictly sorted sequence |
| Merging.MergeIsUnique | main.go:2657-2807 | so the merged bytes are determined by the union of the blocks, whatever the orders of replicas, deliveries and map iteration |
| Merging.CollectBlocks | main.go:2657-2740 | the collection loop keeps one block per key over all replies |
| Merging.HandleMerge | main.go:2620-2808 | after a merge every replica holds exactly the union of the pieces in all replicas' directories in (client, sequence) order, each once, as one block; without the file on the primary nothing changes |
| Merging.MergeUpdate | main.go:1232-1266 | a replica replaces its copy by the merged content, under the client merged_content |
| Merging.MergedPieceIsStable | main.go:2657-2807 | merging what a merge left gives the same bytes |
| Merging.SecondMerge | main.go:2620-2808 | a second merge right after the first changes nothing on any replica |
| MergeRuns.RunsKeepInv | pkg/storage/blockstore.go:338-412 | over any run of appends, catch-ups and merges each replica holds a prefix of each client's appends since the last merge, rightly numbered, and nothing is lost |
| MergeRuns.MergeReplicas | main.go:2620-2808 | on stores that hold a file as in a reachable state of such a run, the merge is the merge step of the run |
| MergeRuns.MergedFilesKeepIssueOrder | pkg/storage/blockstore.go:158-235 | after any such run ended by a merge all replicas read the same bytes: every append exactly once, each client's in issue order |
| MergeRuns.IssueOrderIffClientsAtOrAfterMerged | main.go:1232-1266 | issue order survives all runs of a set of clients if and only if none of them sorts before merged_content |
| Ring.GetSuccessors | pkg/hashing/ring.go:24-63 | collect, sort, search and walk compute the n nearest alive nodes clockwise, or all if fewer: only alive nodes, and none left out that is nearer than one taken |
| Ring.RemovalKeepsSurvivorsInFront | pkg/hashing/ring.go:24-63 | removing any nodes leaves the surviving old replicas, in order, as a prefix of the new successors |
| Ring.NewPrimaryIsOldReplica | pkg/hashing/ring.go:24-63 | with fewer than n replicas lost the new primary is an old replica |
| Ring.FewerLostThanReplicas | pkg/hashing/ring.go:24-63 | losing fewer nodes than there are replicas, and not all nodes, leaves an old replica |
| Ring.AdditionOnlyIntroducesAdded | pkg/hashing/ring.go:24-63 | adding nodes brings only added nodes into the successors |
| Rereplication.CheckAndRereplicate | main.go:297-448 | the scan loop sends a list of messages without repeats: one for each file in a top-level directory that it is primary of and each other expected replica |
| Durability.StepKeepsDurable | main.go:1063-1108 | for names that lie apart, every create, failure round, scan and delivery keeps each file with its primary, and with every other replica or on its way there |
| Durability.FilesSurviveFailures | main.go:297-448 | whole runs with names that lie apart: after every finished round the first min(3, alive) successors of each created file hold its bytes |
| Durability.PrimaryAlwaysHolds | main.go:297-448 | for names that lie apart, also in the middle of a round the first successor holds the file |
| Durability.RoundRepairsIffPrimaryHeld | main.go:297-448 | for names that lie apart, after any membership change, joins included, a round of scans repairs a file if and only if its first successor held it before |
| Durability.NewcomerPrimaryHoldsNothing | main.go:576-630 | a newcomer that comes first on the ring fails that condition |
| Durability.JoinRepairsIff | main.go:576-630 | for names that lie apart, a round after a join completes the replicas of a file if and only if the first node on the ring is not a newcomer |
| NameClash.FinishRound | main.go:297-448 | every round of scans and deliveries can be finished |
| NameClash.NestedIsLost | main.go:311-326 | for every name with a nested directory a run in which a replica is still missing after a finished round |
| NameClash.SharedIsRefused | main.go:1098-1102 | for any two names with one directory such a run: the second file is refused by a node that has the first |
| NameClash.AlwaysSurviveIffApart | pkg/storage/blockstore.go:47-63 | the files of a set of names have all their replicas after every finished round of every run, on any ring and hash, if and only if each storable name has a top-level directory of its own |
| CreateChain.StepKeepsInv | main.go:763-969 | every message of a create is composed right for its place, and an acknowledgment exists only when all have stored |
| CreateChain.AckMeansAllStored | main.go:931-969 | an acknowledgment on its way to anyone, or delivered, means every replica of the chain, of any length, has stored the content |
| CreateChain.StoredInChainOrder | main.go:95-170 | a message reaches a place only after everyone in front of it has stored |
| CreateChain.StepAdvances | main.go:763-969 | while the members of the chain are known, every step brings the create one phase further: down the chain, back up, and past it |
| CreateChain.CreateComesTo | main.go:763-969 | a run has a bounded number of steps, and when none is left exactly one node has been answered if no replica had the name before, and nobody otherwise |
| CreateChain.OriginatorAnsweredIff | main.go:931-969 | it is the originator, unless that remembers a target of an older create |
| CreateChain.StaleTargetIsAnswered | main.go:931-969 | in which case that target is answered |
| CreateChain.CreateCanFinish | main.go:1415-1500 | from every start there is such a run |
| MembershipList.Membership.Merge | pkg/membership/member.go:53-93 | the map is merged entry by entry, independent of the order; the list is rebuilt exactly for a new member or a new failure, else kept; the list invariant holds |
| MembershipList.MergedIsUnique | pkg/membership/member.go:53-93 | the entry-wise merge determines the resulting map |
| MembershipList.MergeIdempotent | pkg/membership/member.go:53-93 | merging the same information again changes nothing and is no change |
| MembershipList.CounterDropsIff | pkg/membership/member.go:63-70 | a counter goes down exactly if a failure with a lower counter arrives for a member not yet failed |
| MembershipList.ListCompleteIff | pkg/membership/member.go:63-92 | a complete list stays complete if and only if the merge rebuilt it or resurrected nobody |
| MembershipList.Membership.UpdateStateGossip | pkg/membership/member.go:95-143 | every entry is checked for its timeout; the list is rebuilt if and only if somebody failed |
| MembershipList.Membership.UpdateStateSwim | pkg/membership/member.go:145-182 | a verdict changes exactly one known, not yet failed member; the list is rebuilt if it failed |
| MembershipList.Membership.Cleanup | pkg/membership/member.go:184-193 | exactly the entries failed for longer than the limit are forgotten |
| MembershipList.Membership.Reset | pkg/membership/member.go:195-212 | the node is its own only member under a new id |
| MembershipList.Membership.RemoveMember | pkg/membership/member.go:214-235 | the member leaves map and list, the rest keeps its order unless the index fell off the end |
| MembershipList.Membership.GetTarget | pkg/membership/member.go:596-615 | fails if and only if the list is empty; returns the member at the index, never a failed one |
| MembershipList.Membership.Heartbeat | pkg/membership/member.go:643-657 | raises the own counter unless the node is unknown or failed |
| MembershipList.RandomPermutation | pkg/membership/member.go:665-674 | the swap loop leaves a permutation, whatever is drawn |
| RoundRobin.FullCycle | pkg/membership/member.go:596-615 | a cycle from the start of the list returns every member exactly once |
| RoundRobin.EveryoneWithin | pkg/membership/member.go:596-615 | any 2n - 1 consecutive turns reach every one of n members, whatever permutations are drawn |
| RoundRobin.BoundIsSharp | pkg/membership/member.go:596-615 | 2n - 2 turns can miss a member, for every n above 1 |
| Timeouts.NeverFailedEarly | pkg/membership/member.go:53-143 | over any merges and checks a member fails only by news from another node or later than its last news plus the grace for the state in which that arrived |
| Timeouts.NewcomerHasGrace | pkg/membership/member.go:76-80 | an unknown member is taken in exactly if it has an address and is not reported failed, and has the grace for the state it arrived in |
| Timeouts.FullGraceIff | pkg/membership/member.go:63-116 | the whole grace is granted whatever checks follow if and only if the news arrived alive, suspicion is off, or Tsuspect is not positive |
| Timeouts.FailedInTime | pkg/membership/member.go:95-143 | a silent member with checks at most delta apart has failed after the grace period and at most one delta later per detection stage |
| Timeouts.SuspectedFailsIffSuspicion | pkg/membership/member.go:103-130 | one whose last news arrived suspected fails between Tfail and Tfail plus delta if suspicion is on, and never by the timer otherwise |
| Timeouts.NodeSettings | main.go:502-565 | with the node's settings a silent member is failed after more than 5 s and at most 5.5 s |
| SwimDetector.Swim.CheckIndirect | pkg/membership/swim.go:147-162 | exactly the expired indirect entries are judged: suspected for another period first, then failed and gone |
| SwimDetector.Swim.CheckDirect | pkg/membership/swim.go:164-178 | exactly the expired direct entries move to the indirect table, and requests go out for each once |
| SwimDetector.Swim.SendPingReq | pkg/membership/swim.go:100-125 | k members that have not failed are asked, unless the list is empty |
| SwimDetector.Swim.Request | pkg/membership/swim.go:182-187 | for each moved entry k members are asked; that fails only on an empty list |
| SwimDetector.Swim.CheckTables | pkg/membership/swim.go:140-178 | the first locked section: both tables entry by entry; a member is failed in the list exactly if it was not before and its own events say so |
| SwimDetector.Swim.SendPing | pkg/membership/swim.go:187-203 | fails only on an empty list; a ping to an unfailed member is in flight, and no table has changed |
| SwimDetector.Swim.InsertPing | pkg/membership/swim.go:206-213 | the second locked section: the target is waited for from now on |
| SwimDetector.Swim.Answered | pkg/membership/swim.go:49-64 | the locked section of a pong: both entries of the sender go, a ping in flight is not touched |
| SwimDetector.Swim.SwimStep | pkg/membership/swim.go:127-216 | a period with nothing in between: both wait tables and the membership map, entry by entry, and the ping that was sent and entered |
| SwimDetector.Swim.HandlePong | pkg/membership/swim.go:16-65 | the information is merged; a pong to an own ping ends the waiting for its sender in both tables; another is passed on |
| SwimDetector.ValidExplains | pkg/membership/swim.go:127-216 | tables that show what happened explain every verdict on every member |
| SwimDetector.Live | pkg/membership/swim.go:16-216 | with information and pongs arriving between any two sections of any periods: every verdict of failure rests on a ping as below, and is justified where no pong was early |
| SwimTrace.VerdictRestsOnPing | pkg/membership/swim.go:147-178 | a verdict of failure rests on a ping and its entry, with no pong since the entry, more than TpingFail + TpingReqFail after the ping, plus another TpingReqFail with suspicion and an alive snapshot; the ping was unanswered exactly if no pong was handled between its sending and its entry |
| SwimTrace.VerdictEndsWaiting | pkg/membership/swim.go:157-160 | the verdict on a suspected entry ends the waiting for its ping |
| SwimTrace.NoEarlyPongJustifies | pkg/membership/swim.go:127-216 | without a pong in that gap every verdict of a run has a ping that stayed unanswered for long enough |
| SwimTrace.EarlyPongFails | pkg/membership/swim.go:203-213 | after any run, for any limits and setting: a pong in that gap can be followed by a verdict that no ping justifies |
| SwimTrace.PongIsSafeIffNotInFlight | pkg/membership/swim.go:49-65 | after a run without such pongs, handling a pong keeps all later verdicts justified if and only if no ping to its sender is in flight |
| SwimTrace.SilentFailsInTime | pkg/membership/swim.go:147-178 | a member that stays silent after a ping and is not pinged again is failed at the latest TpingFail + TpingReqFail later, plus another TpingReqFail with suspicion and an alive snapshot, plus one gap between checks for every stage |
| SwimTrace.FreshNeverFails | pkg/membership/swim.go:164-213 | as long as every check finds the last ping no older than TpingFail, no verdict is ever reached |
| Schedule.PlanTasks | pkg/rainstorm/leader.go:68-162 | the nested loops give stage, index, worker and port of every one of the n * (stages + 1) entries |
| Schedule.TaskAt | pkg/rainstorm/leader.go:68-162 | task i of a stage stands at stage * n + i, on the worker in turn, with port 10000 + stage * n + 2 * i |
| Schedule.AddressesDistinctIff | pkg/rainstorm/leader.go:68-162 | all addresses of a job differ if and only if there is no user stage, n is odd, or the number of workers does not divide n / 2 |
| Schedule.LoadsBalanced | pkg/rainstorm/leader.go:86-88 | in the planned list of tasks the loads of two workers differ by at most one |
| Routing.PortsDiffer | pkg/rainstorm/leader.go:672 | within a stage no two ports meet, initial and added ones mixed |
| Routing.Leader.Submit | pkg/rainstorm/leader.go:164-228 | every stage's entries are its addresses by index; nothing changes without workers |
| Routing.Leader.ScaleStage | pkg/rainstorm/leader.go:614-805 | adding appends one address on a given worker, removing drops the last, never below one; the table stays right if and only if there was a worker to add on; other stages are untouched |
| Routing.AdditionsTakeTurns | pkg/rainstorm/leader.go:657-664 | as many additions in a row as there are workers go to all different ones |
| Routing.RestartIff | pkg/rainstorm/leader.go:1106-1120 | replacing the reported address keeps a stage right if and only if the report named the current worker or the restart stays there, or, for another id, hits nobody's address |
| Routing.Leader.HandleTaskFailure | pkg/rainstorm/leader.go:1026-1128 | same id and port, first alive worker; the first matching entry is replaced; the whole table stays right exactly under that condition |
| Routing.Leader.GetTaskLocation | pkg/rainstorm/leader.go:1132-1149 | the answer lists exactly the current addresses of a user stage by index, all different |
| Completion.Tracker.FirstSection | pkg/rainstorm/leader.go:932-982 | the id is counted once; the fan-out is announced when the originals are first complete |
| Completion.Tracker.SecondSection | pkg/rainstorm/leader.go:1005-1012 | the run ends if the snapshot was complete and it had not ended |
| Completion.Tracker.MarkRemoved | pkg/rainstorm/leader.go:765-770 | a removed id counts as completed at once, once |
| Completion.Tracker.MarkAdded | pkg/rainstorm/leader.go:707-713 | an added task is expected and marked as added, whatever its id |
| Completion.NeverTwice | pkg/rainstorm/leader.go:932-1022 | every interleaving of both sections with any reports, removals and additions: exactly the ids reported or removed are counted, each once, and run end and fan-out happen at most once |
| Completion.NeverEarly | pkg/rainstorm/leader.go:932-1022 | if all ids reported or removed are tasks: no end before a report at which all tasks there were are in, no fan-out before all original tasks are in |
| Completion.EndsIffOutweighed | pkg/rainstorm/leader.go:944-948 | when all handlers are through, the run has ended if and only if some report found at least as many stray ids as missing tasks and repeated additions |
| Completion.StraysEndRun | pkg/rainstorm/leader.go:944-948 | any job is ended, with none of its tasks in, by as many stray ids as it has tasks |
| Completion.ReadditionKeepsFromEnding | pkg/rainstorm/leader.go:709-713 | without strays, a task added again before enough was found keeps the run from ever ending |
| Completion.FansOutIffOutweighed | pkg/rainstorm/leader.go:960-971 | the fan-out has happened if and only if some report found at least as many counted ids that are neither original nor added tasks as original tasks missing or added again |
| Completion.FansOutOnce | pkg/rainstorm/leader.go:960-971 | once every original task has reported and none was added again, the fan-out has happened exactly once |
| Completion.EndsOnce | pkg/rainstorm/leader.go:1005-1022 | after every task, added ones included, has reported, none was added twice, and all handlers are through, the run has ended exactly once |

## Left out

- Sockets, encodings, deadlines, process handling, configuration, the command line, metrics, and the older file layer in pkg/fileops and pkg/storage/manager.go.
- SHA-256 ring positions, random draws, clocks and the key hash: ring positions, drawn permutations, times and the hash are parameters. The wrap-around and the negation of the smallest integer in the key hash are not modelled.
- Pipeline runs assume that senders never give up: exhausted retries (pkg/rainstorm/api.go:518-522, pkg/rainstorm/worker.go:583-584) and the 5 s end-of-stream timeout (pkg/rainstorm/api.go:391-406) lose data. End markers are sent once and arrive: the code neither acknowledges nor resends them, and only logs one it could not send. One id is not handled on two connections at once: check and mark are separate critical sections (pkg/rainstorm/api.go:615-617, 650-654).
- `Pipeline`, `CreateChain`, `Durability` and `MergeRuns` model concurrent handlers as steps on values, one step for one critical section or message. The updates in place inside single handlers are shown in `OperatorTask`, `SourceTask`, `StateLog`, `BlockStore`, `Merging` and `Rereplication`; aliasing between handlers is not modelled.
- How an append is forwarded between replicas (main.go:1110-1194): in `MergeRuns` the appends of a client reach each replica in order, at any time.
- Crashes of sources and of counting tasks, and the exit of finished tasks; counts are not checkpointed. State logs start empty at the start of a job.
- Routing updates that reach tasks in mid-stream, and the rates and watermarks of autoscaling.
- Number of tasks zero: jobs have at least one task per stage.
- In `Durability` a failure round loses at most two nodes and leaves one, and the next change of membership waits for the scans and their messages. A create is one step (its protocol is `CreateChain`, its effect what the chain stores up to the first refusal), files have exact 64-bit ids, and files made by appends, which carry id 0, are not in the catalog. Deleting files is not a step of its runs.
- In `Merging` no append runs between collection and update, and replicas agree on blocks with the same key; copies made by re-replication carry another client and are not merge inputs.
- `FileNames` takes paths as written: names that cleaning a path would change (".", "..", doubled or trailing slashes), and names that leave the storage root, are not modelled.
- `BlockStore` has no input or output errors and no metadata written by older versions; white space is trimmed on Latin-1 characters.
- `CreateChain` has one create of a name in flight.
- `SwimDetector` keeps the two limits constant over a run and leaves out the information a ping carries. Times of pings and verdicts are the clock readings at the start of their periods, as in the code: the waiting of a ping that is sent late in its period is that much shorter. The list may be merged into between the verdicts of one check; the model has them in one section.
- `Routing` counts every scheduled job entry as sent to its worker, runs each scaling action to completion, and leaves out the deferred deletion of removed entries (pkg/rainstorm/leader.go:798-801).
- OperatorTask.OperatorTask.Serve: one connection at a time without waiting for downstream acknowledgments; interleavings are the subject of `Pipeline`.
