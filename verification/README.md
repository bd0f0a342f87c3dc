# Verified model of the P2P GPU coordinator

This project models the parts of a peer-to-peer GPU compute system that have to be
right on every run, and proves that they are (or says exactly when they are not):

- **The coordinator.** Jobs whose keyspace is carved on demand, leases that expire and
  are requeued, probes, speculative races, replicated answers put to a vote, dirty rows
  flushed to a store, and recovery after a crash
  (`src/coordinator/job.cpp`, `session.cpp`, `quorum.cpp`, `store.cpp`).
- **Rendering.** Render jobs carved tile by tile, the parameters built for each task, and
  the picture assembled from accepted tiles (`params.cpp`, `composite.cpp`).
- **The bounding volume hierarchy.** The in-place builder, the byte layout, the loader
  that must accept trees only, and the oracle that audits the loader
  (`src/scene/bvh.cpp`, `fuzz/fuzz_bvh.cpp`).
- **Bytes on the wire.** The frame codec and the chunked asset transfer (`src/protocol`,
  `session.cpp`, `task_loop.cpp`).

## How it is organised

The coordinator exists twice. `Coordinator` and `Protocol` describe each operation as a
function on an immutable `State`; all theorems over runs are about them. `JobManagers`,
`Ballots`, `Stores` and `Sessions` are the imperative code, classes with the source's
fields and loops, and every method is proved to do to its object exactly what the function
does to the state (`ensures View() == F(old(View()), ...)`). One `OnResultHeader` call is
one step, so a task is never seen between two states of the same call. Handlers without a
loop (`Submit`, `RenewLease`, `RecordPartial`, `Finish`, `Requeue` and others) are links of
this kind too; the table below lists those with a loop or a scan, and the results. What the
functions themselves mean is stated apart from them: `Effects`, `Granting` and `Racing` say
of a step which task, job, queue place and snapshot become what, `Surfaces` and
`BvhGeometry` say of boxes and areas which points and laws they satisfy, and `WireFormat` and
`BvhLayout` say of encodings which byte is where.

| files | contents |
|---|---|
| `TaskStates`, `Coordinator`, `Quorum`, `Protocol`, `Tables` | the entities and the operations on them |
| `Invariants`, `Growth`, `Coverage`, `Marking` | what every step keeps |
| `Durability`, `Recovery`, `Worlds`, `Stranding` | flushing, restarting, runs with crashes |
| `Quietness`, `Speculation`, `Runs`, `Progress`, `Serving` | races, whole runs, how much work is left, what a lease request sends |
| `Effects`, `Granting`, `Racing`, `Handouts` | what each step leaves of the state field by field, whose work a grant hands out, when a straggler is raced, who holds what after a request |
| `Voting`, `Counting`, `Honesty` | what a vote means |
| `Remembering`, `Attribution`, `Polls` | whose answer a vote publishes, and that every vote can happen |
| `Partials` | snapshots of unfinished work |
| `Examples`, `PartialExamples`, `CrashExamples`, `ProbeExamples`, `PictureExamples` | short histories that go wrong |
| `JobManager`, `Ballots`, `Store`, `Session` | the imperative coordinator |
| `TileGrids`, `Rendering`, `Compositing`, `Picture` | tiles, render tasks, the picture |
| `Boxes`, `Sah`, `BvhSplits`, `BvhBuilder`, `BvhStructure`, `BvhTrees` | building the hierarchy |
| `Surfaces`, `BvhGeometry` | what areas, bins and costs mean, and that the stored bounds hold the scene's geometry |
| `BvhFormat`, `BvhLayout`, `BvhLoader`, `BvhOracle`, `BvhScene` | storing, loading and auditing it |
| `Words`, `Frames`, `WireFormat`, `Assets`, `Transfers` | the wire |

## Main results

- Every reachable state keeps the invariant, and original ranges cover exactly what was
  carved, each unit once: `Runs.RunIsSafe`, `Coverage.StepKeepsCovered`,
  `Runs.FinishedOnce`; with flushes and crashes, `Worlds.RunsAreSound` and
  `Worlds.ExactlyOnce`, with the exact conditions for coverage, queue, winners and file in
  `Worlds.CoveredAlongRunsIff` and its neighbours.
- An incremental flush is a full snapshot: `Worlds.EveryFlushIsSnapshot`.
- What a step does to the state is known field by field, for every kind of event:
  `Effects.DamagedEffect`, `Effects.AcceptanceEffect` and their neighbours; a worker gets
  work for an asset it holds before any other: `Granting.QueuedGrant`,
  `Granting.FreshEffect`; and a straggler is raced exactly in the last stretch of its job:
  `Racing.RaceIff`.
- An accepted answer is the true one when few enough voters lie: `Honesty.AcceptedIsTrue`;
  the greedy clustering is a count: `Counting.ExactRule`; what an acceptance remembers and
  paints is what it accepted, exactly when: `Polls.RunsRememberAgreedIff`,
  `Polls.RunsPaintAgreedIff`.
- The number of answers is bounded, and no reachable state is stuck, crashes included: after
  the deadlines a grant to a fresh worker fails exactly when all keyspace is handed out and
  only tasks lost to a crash are unfinished: `Progress.RunAnswersBounded`,
  `Progress.NeverStuck`. When a lease request nevertheless sends nothing:
  `Serving.SendsNothingIff`.
- Every render task fits one tile and builds: `Rendering.EveryRenderTaskBuilds`,
  `Rendering.EveryTaskBuildsIff`, `Rendering.TilesConvergeEvenly`; the picture is right:
  `Compositing.Compositor.RenderRgba`, from payload to pixel `Compositing.AcceptThenRender`;
  what a tile shows, and when that is all of it: `Picture.TileShowsLast`,
  `Picture.ShowsWholeTileIff`.
- The loader accepts exactly the serialized trees, and what the builder makes comes back
  unchanged: `BvhLoader.LoadBvh`, `BvhScene.BuildStoreLoad`, `BvhOracle.TestOneInput`. The
  bounds of every stored node are the least box that has the spheres and triangles below it,
  and a range is split exactly where that lowers the summed surface area most:
  `BvhGeometry.NodeIs`, `Surfaces.SplitsAtIff`.
- The splitter accepts exactly the encodings: `Frames.AcceptsExactlyEncodings`; a fetched
  asset is the asset: `Assets.Deliver`, `Assets.FullIffWhole`; a fetch that falls back to
  the coordinator completes exactly when: `Transfers.Resume`, `Transfers.FetchAll`.

## Where the code and its documentation disagree

The model follows the code. Each of these is a lemma with a concrete case or an exact
condition.

1. **A race can be won twice.** "First result wins" (`session.cpp:1503`) relies on
   cancelling every live sibling, but a `Queued` task has no `Cancel` transition
   (`task_state.hpp:138-156`): a straggler whose lease expired stays in the queue, is
   granted again and accepted again. `Speculation.StepOneWinnerIff` and
   `Runs.RunOneWinnerIff` give the exact condition, `Examples.RaceAcceptedTwice` the run.
2. **A restart can lose work, not only repeat it.** `store.hpp:13-15` says the file "can
   only ever repeat work, not lose it". A row stored as `Queued` is adopted as `Queued` but
   not put on the queue (`job.cpp:132-135`), is granted to nobody ever again, and its job
   never completes. `Recovery.RestartQueueOkIff` and `Stranding.QueuedRowLosesJob` say when,
   `Examples.ExpiredThenCrashedIsLost` shows the shortest history.
3. **Adopted rows are marked clean though they differ from the file.** `job.hpp:506-508`
   reasons that they came from it; a requeued row did not. `Recovery.RestartFaithfulIff`,
   over runs `Worlds.ExactAlongRunsIff`; `CrashExamples.CleanButDifferent` is a history.
4. **The remembered answer may be a dissenter's.** The spot-check pool stores the last
   submission's checksum "only when a quorum actually agreed" (`session.cpp:1457-1469`).
   With one threshold this is right exactly when the cap cannot decide against the last
   voter; with thresholds that depend on the voter (`session.cpp:1360-1365`), exactly when
   the cap is at most two: `Remembering.RemembersAgreedIff`, over runs
   `Polls.RunsRememberAgreedIff`. The defaults fail: `Remembering.DefaultsRememberDissent`.
5. **The painted tile may be a dissenter's.** The compositor gets the last submission's
   payload (`session.cpp:1484`) although "only a validated result reaches here", and not
   even a second voter is asked for. With one threshold the condition is the same; with
   varying ones it is right exactly when nothing is replicated:
   `Remembering.PaintsAgreedIff`, over runs `Polls.RunsPaintAgreedIff`.
6. **A restart can lose coverage.** A probe is kept off its job's list (`job.cpp:574-577`)
   until recovery lists every task (`job.cpp:142-144`), and its range then overlaps another;
   a render job comes back with a cursor in place of its tiles, which have no column
   (`store.cpp:32-40`). `Recovery.RestartCoveredIff` and `Worlds.CoveredAlongRunsIff` say
   exactly when, `CrashExamples.ProbeCoversTwice` and `CrashExamples.SpreadLosesCoverage`
   are histories.
7. **A fetch may stall.** "A fetch that reaches here still completes"
   (`task_loop.cpp:1397-1401`), but the worker asks again only at every 64th chunk it keeps
   (`task_loop.cpp:1163-1167`), and falling back asks for the first 64 whatever it has. One
   true chunk ahead of its turn shifts the count, and no further request goes out before the
   stall timer drops the fetch.
   `Transfers.Resume` says exactly when a fallback completes, `Transfers.FetchStalls` is the
   transfer that does not; a fetch with nothing past the first batch does
   (`Transfers.FirstBatchCompletesIff`).
8. **A reporting worker can lose its lease for silence.** A partial "is proof of life and
   renews the lease" (`job.cpp:410-412`), but its sequence number is compared with the last
   one kept for the task (`job.cpp:400-408`), which survives release and regrant. A new
   holder is heard only once it outruns its predecessor: `Partials.RenewsIffNewer`,
   `Partials.NewHolderMustOutrun`, and a run in
   `PartialExamples.ReportingWorkerLosesLease`.
9. **Cancelled tasks keep their snapshot.** Snapshots are to be erased when the task goes
   terminal (`job.hpp:515-517`); cancelling does not erase. `Partials.StepLeavesNoneIff`
   says exactly which steps leave one behind, `PartialExamples.CancelledKeepsSnapshot` is
   a run.
10. **A probe may not fit the job it is given to.** It goes to the first job long enough
   (`job.cpp:558-563`), so in a render job it may cross tiles, and its parameters are then
   refused: `Rendering.EveryTaskBuildsIff`, and a run in `ProbeExamples.ProbeCrossesTiles`.
   The refused probe goes back on the queue (`session.cpp:653-660`), which is served first.
   Once nothing else is queued every request without a probe picks it and ends there, and no
   keyspace is handed out any more: `Serving.JammedForEver`, `ProbeExamples.ProbeStarvesAll`.
11. **A restored render does not resume.** After a restart "the job resumes"
   (`store.hpp:9-10`), but a render job comes back without its render configuration
   (`store.cpp:32-40`), without which no parameters build (`params.cpp:94-101`): whatever
   happens later, no task of it is sent. `Serving.RestartedRenderNeverSent`.
12. **A finished tile may show a part of its samples.** A tile's data is replaced because an
   upload "already contains everything it has computed for this tile"
   (`composite.cpp:83-86`), but the samples of a tile are handed out in several ranges
   (`job.cpp:245-305`). A tile shows all its samples exactly when it was handed out in one
   piece: `Picture.ShowsWholeTileIff`; `PictureExamples.SampleIsReplaced` is a run.

## Model

| member | source | states |
|---|---|---|
| `JobManagers.JobManager.SweepExpiredLeases` | src/coordinator/job.cpp:460-484 | requeues exactly the tasks whose lease ran out, each once, reports holder and size of each, and leaves nothing expired |
| `JobManagers.JobManager.ReleaseAllHeldBy` | src/coordinator/job.cpp:486-494 | requeues exactly the tasks the worker holds, counts them, and leaves it holding none |
| `JobManagers.JobManager.HeldBy` | src/coordinator/job.cpp:668-676 | lists exactly the tasks the worker holds, once each |
| `JobManagers.JobManager.IssueKnownRange` | src/coordinator/job.cpp:551-584 | issues a leased probe of the first job it fits in, without listing it in that job |
| `JobManagers.JobManager.Grant` | src/coordinator/job.cpp:149-325 | a queued task the worker never answered, by cache affinity then queue order; else a range carved from a preferred job, else from any job |
| `JobManagers.JobManager.GrantFromQueue` | src/coordinator/job.cpp:152-209 | grants the queue entry that affinity and queue order pick, and removes that entry only |
| `JobManagers.JobManager.ScanOrder` | src/coordinator/job.cpp:174-183 | the scan visits every queue index exactly once, the preferred one first |
| `JobManagers.JobManager.PreferCached` | src/coordinator/affinity.cpp:5-24 | the first queued task whose input the worker holds, if any |
| `JobManagers.JobManager.CarveFrom` | src/coordinator/job.cpp:239-321 | carves one range from one job: tile choice, size, group boundary, cursor, list and dirty marks |
| `JobManagers.JobManager.PickTile` | src/coordinator/job.cpp:251-274 | the lowest-numbered tile among those granted least and not yet full |
| `JobManagers.TwoPasses` | src/coordinator/job.cpp:227-323 | the affinity pass followed by the plain pass is one pass over the preferred jobs and then all jobs |
| `JobManagers.JobManager.IssueSpeculative` | src/coordinator/job.cpp:696-761 | replicates the first unraced original in its last stretch that somebody else holds, and nothing otherwise |
| `JobManagers.JobManager.HasLiveReplica` | src/coordinator/job.cpp:729-737 | true exactly when some unfinished listed task replicates this one |
| `JobManagers.JobManager.CompletionFraction` | src/coordinator/job.cpp:678-694 | the accepted share of the job, as the specification computes it from the task list |
| `JobManagers.JobManager.CancelSiblingsOf` | src/coordinator/job.cpp:763-802 | cancels each cancellable sibling once, takes it off the queue, counts its units as wasted and reports its holder |
| `JobManagers.RevokedReports` | src/coordinator/job.cpp:763-802 | each unfinished sibling that was not queued is reported once, with its holder and size, and nobody else |
| `JobManagers.JobManager.JobComplete` | src/coordinator/job.cpp:804-822 | true exactly when the keyspace is exhausted and every listed task has ended |
| `JobManagers.JobManager.AllComplete` | src/coordinator/job.cpp:632-639 | true exactly when every job is complete, in whatever order jobs are visited |
| `JobManagers.JobManager.CollectDirty` | src/coordinator/job.cpp:79-99 | the dirty jobs and tasks that exist, in the order of the sets |
| `JobManagers.JobManager.AdoptRecovered` | src/coordinator/job.cpp:106-147 | replaces all state by the rows: in-flight tasks requeued, holders cleared, lists rebuilt, nothing dirty |
| `Ballots.Judge` | src/coordinator/quorum.cpp:40-184 | the clustering loops, the choice of the best cluster and the four-way decision compute `Decide` |
| `Ballots.Cluster` | src/coordinator/quorum.cpp:58-90 | the greedy grouping loops compute the clusters of the specification |
| `Ballots.Collect` | src/coordinator/quorum.cpp:129-138 | agreeing voters are those of the best cluster, dissenting voters all others in cluster order |
| `Stores.Store.Flush` | src/coordinator/store.cpp:186-259 | all rows are written or, if any write fails, none is |
| `Stores.Store.WriteTask` | src/coordinator/store.cpp:216-256 | a task row is inserted whole or has its state updated, and prior workers are only added |
| `Stores.Store.LoadAll` | src/coordinator/store.cpp:289-387 | reads back every row with its prior workers, and a next id above all ids read |
| `Stores.FlushDirty` | src/coordinator/net.cpp:225-240 | after success the tables have the dirty rows and nothing is dirty; after failure neither side changed |
| `Stores.Recover` | src/coordinator/store.cpp:389-391 | loading and adopting yields exactly the restart the theorems are about |
| `Sessions.Wanted` | src/coordinator/session.cpp:506-509 | a request for one to four tasks is kept, a smaller one counts as one, a larger one as four |
| `Sessions.Session.OnLeaseRequest` | src/coordinator/session.cpp:505-660 | fills up to the wanted number of slots, each by a grant, a probe in its place or a race; gives back what does not build, and stops at the first slot that sends nothing |
| `Serving.BuildsIff` | src/coordinator/params.cpp:58-140 | parameters build for a search of up to 2^32 - 1 candidates, for every calibration, and for a path tracing task whose units are samples of one tile of the grid |
| `Serving.ServeIsSteps` | src/coordinator/session.cpp:549-660 | a slot is a lease step, followed by a release step if the task picked is refused |
| `Serving.SlotsAreSteps` | src/coordinator/session.cpp:549-660 | so a multi-slot request is a run, and what holds of runs holds of it |
| `Handouts.RequestHands` | src/coordinator/session.cpp:549-660 | after a whole request the worker holds what it held and exactly what it is sent, each task once and none of them held before, and everybody else holds what they held |
| `Handouts.StopsAtFirst` | src/coordinator/session.cpp:628-660 | a request that sends fewer tasks than it has slots ends with the first slot that sends none |
| `Serving.SendsNothingIff` | src/coordinator/session.cpp:549-660 | a request sends nothing if and only if there is neither work nor a race for the worker, or the task picked for it does not build |
| `Serving.JammedForEver` | src/coordinator/session.cpp:641-660 | while no task on the queue builds, requests without a probe send nothing and hand out no keyspace, however many come |
| `Serving.RestartedRenderNeverSent` | src/coordinator/params.cpp:94-101 | no task of a render job adopted at a restart is sendable in any state of any run after it |
| `Sessions.Session.OnDisconnect` | src/coordinator/session.cpp:1559-1576 | gives back all the worker held; afterwards it holds nothing |
| `Sessions.Session.OnResultHeader` | src/coordinator/session.cpp:1110-1557 | duplicate, length, lease, checksum, partial, submit, vote, finish, cancel, in that order; a task is marked completed only on acceptance, and an acceptance gives the pool the last checksum once two voters agree and the compositor the last payload if the job renders |
| `Sessions.LeftBehind` | src/coordinator/session.cpp:1457-1497 | what an acceptance gives the pool and the compositor: range and checksum once two voters agree, and the payload for the tile the range starts in if the job renders |
| `Effects.NewJobEffect` | src/coordinator/job.cpp:17-31 | a new job appears under the next id, with the parameters given and nothing handed out; nothing else changes |
| `Effects.NewRenderEffect` | src/coordinator/main.cpp:213-237 | a render job has a unit per tile and sample, a group per tile, and a zero counter for each tile |
| `Effects.RenewalEffect` | src/coordinator/job.cpp:366-385 | the holder's renewal moves its deadline only; anybody else's changes nothing |
| `Effects.ReleaseEffect` | src/coordinator/job.cpp:612-625 | the holder's release puts the task at the end of the queue, free for anybody |
| `Effects.SweepEffect` | src/coordinator/job.cpp:460-484 | the timer gives back exactly the leases whose deadline has come, each once, and changes nothing else |
| `Effects.DepartureEffect` | src/coordinator/session.cpp:1559-1576 | a worker that goes away gives back exactly what it held, each once, and changes nothing else |
| `Effects.IgnoredEffect` | src/coordinator/session.cpp:1117-1153 | an answer seen before, of the wrong length, or from anyone but the holder changes nothing at all |
| `Effects.DamagedEffect` | src/coordinator/session.cpp:1155-1193 | an answer that arrives damaged puts its task back at the end of the queue at once, with its prior workers and answers as they were; no other task, job or snapshot changes |
| `Effects.SnapshotEffect` | src/coordinator/session.cpp:1195-1235 | a snapshot numbered above the one held replaces it and renews the lease; any other changes nothing |
| `Effects.Reactions` | src/coordinator/session.cpp:1110-1348 | which of the outcomes an answer has, case by case and in the order of the checks, and the verdict if it is voted on |
| `Effects.UndecidedEffect` | src/coordinator/session.cpp:1378-1411 | an undecided vote remembers the worker and queues the task, with all answers so far or, if they came to nothing, with none |
| `Effects.AcceptanceEffect` | src/coordinator/session.cpp:1413-1515 | an acceptance ends the task, cancels the leased members of its family, drops its snapshot, and changes no other task, no job and not what is queued |
| `Granting.QueuedGrant` | src/coordinator/job.cpp:152-209 | the first queued task whose job reads an asset the worker holds is leased to it if it is free for it, or else the first that is; it leaves the queue and nothing else changes |
| `Granting.FreshEffect` | src/coordinator/job.cpp:211-323 | with nothing queued for the worker the range comes from the first job with keyspace left that reads an asset it holds, or else from the first with any left, and there is no grant if none has |
| `Granting.HeldAssetFirst` | src/coordinator/job.cpp:215-236 | while such a job exists, the task granted is of a job whose input the worker holds |
| `Granting.CarveEffect` | src/coordinator/job.cpp:239-321 | the range starts at the cursor, or where the least granted tile stopped, is as long as asked, left and inside the group, and moves cursor, tile counter and list by just that |
| `Granting.LeaseEffect` | src/coordinator/session.cpp:585-634 | a request is a grant; a known range that fits in some job displaces it, and the task granted goes back on the queue; without a grant it is a race, if races are on |
| `Racing.AcceptedCounts` | src/coordinator/job.cpp:678-694 | the sum behind the completion share counts each unit of each accepted original once |
| `Racing.DoneIsUnits` | src/coordinator/job.cpp:678-694 | where ranges cover the keyspace that is the number of units lying in accepted original ranges |
| `Racing.RaceIff` | src/coordinator/job.cpp:696-761 | a worker is given a race if and only if some job is all handed out, has at least the threshold's share accepted, and lists a straggler that is not raced and that somebody else holds |
| `Racing.RaceEffect` | src/coordinator/job.cpp:696-761 | the first straggler of the first such job gets a leased replica of its range, listed by its job; nothing else changes |
| `Growth.StepKeeps` | src/coordinator/job.cpp:149-802 | every step keeps the core invariant (fresh ids, lists and owners agree, voters distinct, families sound) and that the queue is exactly the queued tasks, once each |
| `Invariants.VoteGood` | src/coordinator/session.cpp:1340-1515 | submit, record, decide, finish and cancel together keep the invariant, whatever the verdict |
| `Invariants.CancelSiblingsGood` | src/coordinator/job.cpp:763-802 | a task is cancelled only when a sibling was accepted |
| `Growth.AddReplicaKeeps` | src/coordinator/job.cpp:706-757 | no replica is ever replicated, and an original never has two live replicas |
| `Coverage.CarveExtends` | src/coordinator/job.cpp:243-305 | a carve takes units nobody had, and the carved units become exactly the old ones and these, for keyspace and render jobs |
| `Coverage.CarvedBelowTotal` | src/coordinator/job.cpp:283-305 | carved units lie inside the job, and are all of it when the job is exhausted |
| `Coverage.StepKeepsCovered` | src/coordinator/job.cpp:211-323 | at every step the original ranges of a job are disjoint and cover exactly what was carved |
| `Marking.StepEvolves` | src/coordinator/job.cpp:62-77 | every change to a stored column is marked dirty, and columns the upsert leaves out never change |
| `Runs.RunIsSafe` | src/coordinator/job.cpp:149-822 | all invariants hold in every state any run reaches |
| `Runs.CompleteIsDone` | src/coordinator/job.cpp:804-822 | when a job is complete each unit lies in exactly one original range, and its family has an accepted answer |
| `Runs.FinishedOnce` | src/coordinator/job.cpp:763-822 | and exactly one accepted answer, on runs in which no answer is accepted past a queued rival |
| `Worlds.ExactlyOnce` | src/coordinator/job.cpp:106-147 | a complete job has each unit in exactly one original range with exactly one accepted answer, over runs with flushes, failed flushes and crashes that lose no coverage and pass no queued rival |
| `Durability.EvolvesKeepsBehind` | src/coordinator/store.cpp:140-159 | tables that agree with memory on every clean row still do after any marked change |
| `Durability.FlushCatchesUp` | src/coordinator/store.cpp:186-259 | writing the dirty rows and clearing the marks keeps that agreement |
| `Durability.FlushIsSnapshot` | src/coordinator/store.cpp:186-259 | an incremental flush leaves the tables exactly the projection of memory |
| `Worlds.EveryFlushIsSnapshot` | src/coordinator/net.cpp:225-240 | so does every flush on every run, after failed flushes and after crashes that find no row in flight |
| `Worlds.ExactAlongRunsIff` | src/coordinator/job.cpp:106-147 | the file agrees exactly with memory on clean rows in every state of a run if and only if no crash finds a row in flight |
| `Recovery.RestartBuilds` | src/coordinator/job.cpp:106-147 | what loading and adopting in any row order yields, field by field |
| `Recovery.RestartEffect` | src/coordinator/store.cpp:289-387 | the same in the columns' own terms: which field comes from which column, which are blank, and what is queued |
| `Recovery.BuiltIsRestored` | src/coordinator/store.cpp:289-391 | a restart brings back the flushed state: ranges, replicas, cursors, terminal states and prior workers kept, in-flight tasks queued, holders gone |
| `Recovery.RestoredLists` | src/coordinator/job.cpp:142-145 | ids stay fresh, and lists, owners and replica links agree again, probes and renders included |
| `Recovery.RestoredFamilies` | src/coordinator/job.cpp:121-146 | cancelled tasks still have an accepted sibling |
| `Recovery.RestoredCovered` | src/coordinator/job.cpp:106-147 | if memory was restorable, no unit is lost from the carved ranges and none is carved twice |
| `Recovery.RestoredOneWinner` | src/coordinator/job.cpp:121-146 | one winner per family and one race per original survive a restart |
| `Worlds.CrashSound` | src/coordinator/job.cpp:106-147 | a crash at any flushed state, of keyspace jobs or renders, with or without probes, re-establishes the core invariant |
| `Worlds.RunsAreSound` | src/coordinator/job.cpp:106-147 | so the core invariant, and agreement of the file with memory on clean rows, hold along every run with any number of flushes and crashes |
| `Recovery.RestartQueueOkIff` | src/coordinator/job.cpp:132-135 | the queue holds the queued tasks after a restart if and only if no row was stored as queued |
| `Worlds.QueueAlongRunsIff` | src/coordinator/job.cpp:132-135 | the queue holds the queued tasks in every state of a run if and only if no crash finds a queued row |
| `Recovery.RestartFaithfulIff` | include/p2pgpu/coordinator/job.hpp:506-510 | memory equals the file after a restart if and only if no row was in flight |
| `Recovery.RestartCoveredIff` | src/coordinator/job.cpp:142-144 | coverage survives a restart if and only if no probe was stored and every render job had filled its tiles in order |
| `Recovery.FilledInOrderIff` | src/coordinator/store.cpp:32-40 | a render job has handed out exactly the units below its cursor if and only if it filled its tiles in order |
| `Worlds.CoveredAlongRunsIff` | src/coordinator/job.cpp:106-147 | original ranges cover exactly what was carved in every state of a run if and only if every crash finds restorable memory in the file |
| `Worlds.OneWinnerAlongRunsIff` | src/coordinator/session.cpp:1498-1515 | and every family has one winner in every state, across crashes, if and only if no acceptance passes a queued rival |
| `Stranding.RestartStrands` | src/coordinator/job.cpp:132-135 | a stored queued row is in no queue after the restart |
| `Stranding.StepPassesBy` | src/coordinator/job.cpp:185-209 | and no step of any kind touches it |
| `Stranding.QueuedRowLosesJob` | include/p2pgpu/coordinator/store.hpp:11-15 | so whatever happens afterwards, further crashes included, its job never completes |
| `Examples.ExpiredThenCrashedIsLost` | src/coordinator/job.cpp:132-135 | a possible four-step history (create, lease, expire, flush) and a possible crash after which the job never completes |
| `Examples.HistoryLeadsThere` | src/coordinator/net.cpp:225-240 | that history is a possible run from the start |
| `CrashExamples.CleanButDifferent` | include/p2pgpu/coordinator/job.hpp:506-510 | create, lease, flush and a possible crash: in whatever order the file is read, everything is marked clean and memory is not what the file holds |
| `CrashExamples.ProbeCoversTwice` | src/coordinator/job.cpp:142-144 | a history in which two workers agree on a range and it is probed; a crash after the flush is possible, and every one covers the range twice |
| `CrashExamples.SpreadLosesCoverage` | src/coordinator/store.cpp:32-40 | a history in which two tiles have given out one sample each; a crash after the flush is possible, and every one loses coverage |
| `Worlds.CrashIsPossible` | src/coordinator/store.cpp:289-391 | from every state of every history the process can die and its file be read in some order |
| `Speculation.CancelClosesFamilyIff` | src/coordinator/job.cpp:763-802 | acceptance ends every sibling if and only if none was queued |
| `Speculation.StepOneWinnerIff` | src/coordinator/session.cpp:1498-1515 | a step keeps one winner per family and one race per original if and only if it does not accept past a queued rival |
| `Runs.RunOneWinnerIff` | src/coordinator/session.cpp:1498-1515 | the same for a whole run: every state has one winner per family if and only if no acceptance passes a queued rival |
| `Speculation.NeverRaced` | src/coordinator/job.cpp:729-737 | a task about to be raced was never raced before, so a family has at most two members |
| `Speculation.StepKeepsWasted` | src/coordinator/job.cpp:793 | the wasted-units counter is always the sum of the cancelled sizes |
| `Examples.RaceAcceptedTwice` | include/p2pgpu/coordinator/task_state.hpp:138-156 | a run from the start that ends with two accepted answers for one range |
| `Partials.PartialsAfter` | src/coordinator/job.cpp:387-427 | a step keeps every snapshot but the one it replaces by a newer one from the holder, and that of the task it accepts |
| `Partials.RunNewer` | include/p2pgpu/coordinator/job.hpp:249-252 | over any run, whoever holds the task, a snapshot gives way only to a newer one or to acceptance |
| `Partials.RenewsIffNewer` | src/coordinator/session.cpp:1207-1225 | a holder's readable partial renews its lease if and only if it is numbered above the one kept; otherwise the step changes nothing |
| `Partials.NewHolderMustOutrun` | src/coordinator/job.cpp:400-415 | so after any run a new holder's partials are ignored until they outnumber its predecessor's |
| `Partials.AcceptanceEnds` | src/coordinator/session.cpp:1498-1515 | an acceptance ends exactly the winner and its leased siblings, and accepts the winner only |
| `Partials.OnlyAcceptanceEnds` | src/coordinator/job.cpp:496-516 | no other step ends any task |
| `Partials.StepLeavesNoneIff` | include/p2pgpu/coordinator/job.hpp:515-518 | only unfinished tasks have snapshots after a step if and only if it does not cancel a sibling that had one |
| `PartialExamples.ReportingWorkerLosesLease` | src/coordinator/job.cpp:400-415 | a run from the start in which a reporting holder's lease is swept away |
| `PartialExamples.CancelledKeepsSnapshot` | include/p2pgpu/coordinator/job.hpp:515-518 | a run from the start in which a cancelled task's snapshot stays behind |
| `Voting.ClustersAreGreedy` | src/coordinator/quorum.cpp:58-90 | members of a cluster all agree with each other, and each was refused by every earlier cluster, for any relation, transitive or not |
| `Voting.ClustersPartition` | src/coordinator/quorum.cpp:58-90 | every submission is in exactly one cluster |
| `Voting.ClustersExtend` | src/coordinator/quorum.cpp:62-90 | clustering is online: later submissions never change how earlier ones were grouped |
| `Voting.ExactClustersCount` | src/coordinator/quorum.cpp:26-30 | for exact kernels a cluster is all submissions with one checksum, one cluster per checksum |
| `Counting.ExactWinning` | src/coordinator/quorum.cpp:92-99 | for exact kernels the winning cluster has the most frequent checksum |
| `Counting.ExactRule` | src/coordinator/quorum.cpp:140-183 | the decision is a rule on two numbers: how many voted, and how often the most frequent answer came |
| `Counting.OrderIrrelevant` | src/coordinator/quorum.cpp:40-184 | for exact kernels the action does not depend on the order of submissions |
| `Counting.AcceptedAreClose` | src/coordinator/quorum.cpp:22-99 | on other kernels any two accepted answers are close, the later to the earlier, and they reach the threshold or the majority |
| `Counting.TwoAnswers` | src/coordinator/quorum.cpp:22-38 | where two agreeing answers are wanted, two are accepted if and only if they agree: by checksum on exact kernels, by closeness of the payloads on others |
| `Counting.EveryVoterJudged` | src/coordinator/quorum.cpp:129-153 | on acceptance every voter is judged once, agreeing or dissenting |
| `Counting.VoteIsSound` | src/coordinator/quorum.cpp:140-175 | with fewer liars than the threshold and at most half the votes, the accepted answer is the true one and every dissenter a liar |
| `Counting.LiarsAtTheBoundWin` | src/coordinator/quorum.cpp:140-175 | the bound is tight: at it, agreeing liars get their answer accepted |
| `Honesty.AnswersAreDistinct` | src/coordinator/job.cpp:195-200 | the answers voted on come from distinct workers, after restarts of validation too |
| `Honesty.LiarVotesAreLiars` | src/coordinator/job.cpp:349-364 | so counting lying votes counts liars |
| `Honesty.StepKeepsHonest` | src/coordinator/job.cpp:518-610 | every stored answer is the true one or a liar's, at every step |
| `Honesty.AcceptedIsTrue` | src/coordinator/session.cpp:1340-1500 | end to end: on any history, whatever crashed on the way, an exact answer accepted under replication with few enough lying voters is the true answer |
| `Remembering.LastIsAccepted` | src/coordinator/quorum.cpp:140-175 | under one threshold, the submission that reaches it is in the accepted cluster; so is the one that completes a vote by majority, if the cap is safe |
| `Remembering.RemembersAgreedIff` | src/coordinator/session.cpp:1457-1469 | whatever the kernel, the voters and their standing, the remembered submission is of the accepted cluster if and only if, with one threshold, the cap cannot decide against the last voter and, with per-worker thresholds, the cap is at most two |
| `Remembering.PaintsAgreedIff` | src/coordinator/session.cpp:1471-1497 | the same for the painted payload, which asks for no second voter: with per-worker thresholds if and only if nothing is replicated |
| `Remembering.InWinningIff` | src/coordinator/quorum.cpp:26-30 | for exact kernels, being of the accepted cluster is having its checksum |
| `Remembering.DefaultsRememberDissent` | src/coordinator/session.cpp:1360-1365 | the default caps are safe with one threshold; with per-worker thresholds a trusted dissenter's answer is remembered |
| `Attribution.StepKeepsOpen` | src/coordinator/session.cpp:1356-1411 | the answers on record are always those of a vote that is still open |
| `Attribution.PaintedIsAccepted` | src/coordinator/session.cpp:1471-1497 | on every history of a safe configuration, crashes included, the payload painted is of the accepted cluster |
| `Attribution.RememberedIsAccepted` | src/coordinator/session.cpp:1457-1469 | and so is the submission whose checksum is remembered |
| `Polls.CompletionHappens` | src/coordinator/quorum.cpp:186-216 | every vote that can complete, with voters of any standing, does so at the end of some run from the start |
| `Polls.RunsPaintAgreedIff` | src/coordinator/session.cpp:1471-1497 | over all histories, crashes included, every tile painted is of the accepted cluster if and only if the configuration is safe for the picture |
| `Polls.RunsRememberAgreedIff` | src/coordinator/session.cpp:1457-1469 | over all histories, crashes included, every checksum remembered is of the accepted cluster if and only if the configuration is safe for the pool |
| `Progress.AcceptedAtQuota` | src/coordinator/quorum.cpp:140-163 | with honest workers and quota k, a task is accepted exactly at its k-th answer |
| `Progress.CountLowersWork` | src/coordinator/session.cpp:1378-1500 | every counted answer strictly lowers k times the uncarved units plus the missing votes |
| `Progress.OtherStepsCost` | src/coordinator/job.cpp:239-625 | no other step raises it, except by the size of a new job and k per probe or race |
| `Progress.RunAnswersBounded` | src/coordinator/job.cpp:149-625 | so the answers counted on a run are bounded by those charges |
| `Progress.AnswersAfterCrash` | src/coordinator/job.cpp:106-147 | and after any crash, until the next one, by those charges and the work the file left to do |
| `Progress.NoWorkIffIdle` | src/coordinator/job.cpp:632-639 | no work is left exactly when all keyspace is carved and every task has ended |
| `Progress.GrantFailsIff` | src/coordinator/job.cpp:149-325 | a worker new to the queued tasks is refused exactly when every queued task is on no queue and every job is exhausted |
| `Progress.SweepClears` | src/coordinator/job.cpp:460-484 | a sweep past all deadlines leaves nothing leased |
| `Progress.NeverStuck` | src/coordinator/job.cpp:149-484 | in every state of every history, after such a sweep a fresh worker gets a task unless all keyspace is handed out and each unfinished task is on no queue; that is, unless everything is done, if no crash found a queued row |
| `Rendering.TilesPartitionImage` | src/coordinator/composite.cpp:26-41 | each pixel lies in exactly one clipped tile |
| `TileGrids.TileGrid.TileAt` | src/coordinator/composite.cpp:26-41 | tiles exist exactly for indices below the count, are non-empty and inside the image |
| `TileGrids.TileIs` | src/coordinator/composite.cpp:26-41 | tiles are numbered row by row; each starts a whole number of tile sizes from the corner and is cut off where the image ends |
| `Rendering.UnitsAreSamples` | src/coordinator/params.cpp:108-112 | a unit number is one tile and one sample, both ways |
| `Rendering.StepKeepsAligned` | src/coordinator/job.cpp:243-305 | no step makes a render task that crosses a tile, and tiles stay within one request of each other |
| `Rendering.EveryRenderTaskBuilds` | src/coordinator/params.cpp:94-125 | on every run the parameters of every listed render task build, with the window that holds exactly its units |
| `Rendering.BuildsIffFits` | src/coordinator/params.cpp:94-125 | parameters build if and only if the task is a window of one tile, and then render exactly its units |
| `Rendering.EveryTaskBuildsIff` | src/coordinator/job.cpp:551-584 | on every run, all tasks of a render job build, probes included, if and only if each probe is a window of one tile |
| `ProbeExamples.ProbeCrossesTiles` | src/coordinator/job.cpp:551-584 | a run from the start in which an agreed range of a search is probed, goes to a render job and crosses a tile, so that its parameters are refused |
| `ProbeExamples.ProbeStarvesAll` | src/coordinator/session.cpp:641-660 | that run goes on to a state in which every request without a probe sends nothing and three of four samples are never handed out |
| `Rendering.TilesConvergeEvenly` | src/coordinator/job.cpp:245-274 | if no request exceeds m units, any two tiles differ by at most m, and all are full exactly when the keyspace is exhausted |
| `Compositing.AtInjective` | src/coordinator/composite.cpp:158-161 | distinct channels of distinct pixels have distinct positions in the buffer |
| `Compositing.ColourAt` | src/coordinator/composite.cpp:61-72 | unpacking keeps the three colours of each pixel in place, with zero for what is not finite |
| `Compositing.Compositor.AcceptTile` | src/coordinator/composite.cpp:43-88 | a payload is taken exactly when its size is the tile's, and replaces what was there; values that are not finite count as zero |
| `Compositing.Compositor.RenderRgba` | src/coordinator/composite.cpp:132-172 | each pixel shows its own tile's colour at its own place, black where unrendered, opaque everywhere |
| `Compositing.AcceptThenRender` | src/coordinator/composite.cpp:43-172 | once a payload is taken, each channel of each pixel of its tile shows the transfer of that very channel of that pixel in the payload, or black if its first pixel counts no samples |
| `Compositing.OtherShows` | src/coordinator/composite.cpp:83-86 | and no pixel outside the tile changes |
| `Compositing.TileHoldsLast` | src/coordinator/composite.cpp:83-86 | after any payloads a tile holds the last that fits it |
| `Picture.TileShowsLast` | src/coordinator/session.cpp:1471-1497 | at the end of every run a tile shows the last accepted payload of its size, which answers a task on record for that tile |
| `Picture.ShowsWholeTileIff` | src/coordinator/composite.cpp:83-86 | what a tile shows is all its samples if and only if the tile was handed out in one piece, if and only if the task shown has a tile's number of samples |
| `PictureExamples.SampleIsReplaced` | src/coordinator/composite.cpp:83-86 | a run from the start after which a finished job's only tile shows one of its two accepted samples |
| `Surfaces.ContainsIff` | src/scene/bvh.cpp:20-35 | one box contains another exactly when it has all its points |
| `Surfaces.AreaTurned` | src/scene/bvh.cpp:36-44 | a box's area does not depend on the names of the axes |
| `Surfaces.AreaGrows` | src/scene/bvh.cpp:36-44 | a box inside another has no larger area |
| `Surfaces.AreaCut` | src/scene/bvh.cpp:36-44 | the parts of a box cut in two have its area and twice that of the cut |
| `Surfaces.UnitArea` | src/scene/bvh.cpp:36-44 | the unit cube has area six; a box that is empty or inside out has none |
| `Surfaces.CentroidBoundsLeast` | src/scene/bvh.cpp:115-120 | the centroids' box is the least that has every centroid |
| `Surfaces.CutIs` | src/scene/bvh.cpp:137-145 | a range is cut along the axis of largest extent, the last of several, over the whole of it |
| `Surfaces.BinIs` | src/scene/bvh.cpp:147-153 | the bins are twelve intervals of equal width, the last one closed |
| `Surfaces.CostIsCharge` | src/scene/bvh.cpp:160-186 | a plane costs every item the area of the least box around the items on its own side |
| `Surfaces.LeafCostIsCharge` | src/scene/bvh.cpp:188-190 | no plane costs every item the area of the least box around all |
| `Surfaces.SplitsAtIff` | src/scene/bvh.cpp:132-204 | a range is split exactly if it has five items or more and some plane of the eleven costs less than none, at the cheapest, the last of several |
| `Surfaces.StaysWholeIff` | src/scene/bvh.cpp:132-194 | and stays whole exactly otherwise |
| `Sah.BoundsLeast` | src/scene/bvh.cpp:113-120 | the bounds hold every item, and any box that does holds the bounds |
| `BvhSplits.FillBins` | src/scene/bvh.cpp:147-158 | each bin counts and bounds exactly the items that fall in it |
| `BvhSplits.SweepLeft` | src/scene/bvh.cpp:160-171 | left areas and counts are those of the items left of each plane |
| `BvhSplits.Sweep` | src/scene/bvh.cpp:172-186 | finds the cheapest plane with items on both sides, ties to the right, or none |
| `Sah.WithinJoin` | src/scene/bvh.cpp:166-178 | counts and bounds of adjacent bins add up to those of their union |
| `Sah.EveryPlaneSeparates` | src/scene/bvh.cpp:137-145 | when centroids differ along the axis, every plane has items on both sides |
| `BvhSplits.Partition` | src/scene/bvh.cpp:196-199 | rearranges in place into those left of the plane and the rest, touching nothing outside the range |
| `BvhSplits.PartitionSides` | src/scene/bvh.cpp:196-204 | the partition splits exactly where the sweep counted |
| `BvhSplits.Split` | src/scene/bvh.cpp:196-204 | both sides are non-empty, so the guard after the partition never fires |
| `BvhSplits.Decide` | src/scene/bvh.cpp:132-194 | splits at the best plane exactly when there is one cheaper than a leaf |
| `Sah.WholeOrSplit` | src/scene/bvh.cpp:190-194 | the two outcomes exclude each other |
| `BvhBuilder.Builder.Build` | src/scene/bvh.cpp:111-221 | terminates; appends a subtree that encodes an optimal split tree over a permutation of its range, changes nothing else, and tracks its depth and largest leaf |
| `BvhStructure.NodesPerLeaf` | src/scene/bvh.cpp:206-220 | nodes are twice the leaves less one, and no more leaves than primitives |
| `BvhStructure.BuiltIsTree` | src/scene/bvh.cpp:206-220 | every built node is reached by one path, children adjacent and after their parent, leaf ranges in bounds |
| `BvhStructure.BoxesAreNested` | src/scene/bvh.cpp:113-121 | a node's box holds its children's boxes and its primitives' boxes |
| `BvhStructure.LeavesPartition` | src/scene/bvh.cpp:196-220 | each primitive index is in exactly one leaf |
| `BvhStructure.HeightIsMaxDepth` | src/scene/bvh.cpp:113 | the depth tracked while recursing is the longest path |
| `BvhScene.PrimitivesArePermuted` | src/scene/bvh.cpp:279-284 | the stored primitives are those of the scene, rearranged |
| `BvhScene.BuildBvh` | src/scene/bvh.cpp:226-286 | the empty scene gives no nodes; any other gives a finished tree with its statistics |
| `BvhGeometry.SphereBoxIff` | src/scene/bvh.cpp:60-67 | a box contains a sphere's box exactly when it has the six points one radius from the centre along the axes, and exactly when it has the whole ball |
| `BvhGeometry.TriangleBoxIff` | src/scene/bvh.cpp:69-78 | a box contains a triangle's box exactly when it has its three vertices |
| `BvhGeometry.BoxHasTriangle` | src/scene/bvh.cpp:69-78 | and then it has every point of the triangle |
| `BvhGeometry.CentroidIs` | src/scene/bvh.cpp:251-273 | the centroid is a sphere's centre, and the middle of a triangle's box |
| `BvhGeometry.NodeIs` | src/scene/bvh.cpp:111-221 | the bounds stored for a node are the corners of the least box that has every sphere and triangle stored below it |
| `BvhGeometry.NodeLinks` | src/scene/bvh.cpp:122-130 | a stored leaf has its first primitive, its count and the flag, any other node its left child |
| `BvhGeometry.PrimitiveIs` | src/scene/bvh.cpp:242-271 | each stored primitive has the kind, the material and the centre and radius, or the vertices in order, of its primitive of the scene |
| `BvhGeometry.StoredOnce` | src/scene/bvh.cpp:279-284 | each primitive of the scene is stored at exactly one place |
| `BvhGeometry.MaterialIs` | src/scene/bvh.cpp:226-237 | materials keep their order, albedo, fuzz and kind |
| `BvhLayout.HeaderLayout` | include/p2pgpu/scene/bvh.hpp:35-62 | magic, version, counts, offsets, length and zeros, each at its place in the bytes, little-endian |
| `BvhLayout.NodeLayout` | include/p2pgpu/scene/bvh.hpp:66-79 | node i begins at byte 64 + 32 i, each field at its offset |
| `BvhLayout.PrimLayout` | include/p2pgpu/scene/bvh.hpp:88-102 | primitives follow the nodes, 64 bytes each, each field at its offset |
| `BvhLayout.MaterialLayout` | include/p2pgpu/scene/bvh.hpp:108-113 | materials follow the primitives, 32 bytes each, each field at its offset |
| `BvhLayout.WellFormedIff` | src/scene/bvh.cpp:331-502 | what the loader demands, in numbers: caps, ranges and references in bounds, known kinds, one parent for every node but the root |
| `BvhLayout.LargestLeafIs` | src/scene/bvh.cpp:504-519 | the largest leaf reported is the largest count among the nodes flagged as leaves |
| `BvhFormat.UnpackPack` | src/scene/bvh.cpp:307-315 | unpacking what was packed gives the same records |
| `BvhFormat.PackUnpack` | src/scene/bvh.cpp:400-402 | packing what was unpacked gives the same words |
| `BvhLoader.SerializeBvh` | src/scene/bvh.cpp:288-317 | header, nodes, primitives and materials, each at its offset and nothing else, the empty hierarchy included |
| `BvhLoader.DecodeSerialized` | src/scene/bvh.cpp:288-402 | decoding a serialization gives back what was serialized |
| `BvhLoader.SerializeDecoded` | src/scene/bvh.cpp:331-402 | and serializing what was decoded gives back the bytes |
| `BvhLoader.CheckHeader` | src/scene/bvh.cpp:332-394 | passes exactly the bytes whose header, counts, offsets and length agree |
| `BvhLoader.CheckTree` | src/scene/bvh.cpp:478-502 | the in-degree test accepts exactly the trees |
| `BvhLoader.Depths` | src/scene/bvh.cpp:504-519 | the one-pass recomputation gives the longest path |
| `BvhLoader.LoadBvh` | src/scene/bvh.cpp:331-522 | accepts exactly the serializations of well-formed hierarchies, and returns that hierarchy with its true depth and largest leaf |
| `BvhTrees.OnePath` | src/scene/bvh.cpp:463-502 | in what the loader accepts, each node has exactly one path from the root |
| `BvhTrees.TreeIffOneWay` | src/scene/bvh.cpp:463-502 | with increasing children, being a tree is the same as every node being reached by exactly one path |
| `BvhOracle.Walk` | fuzz/fuzz_bvh.cpp:106-128 | the stack traversal terminates, objects exactly when some node is reached by two paths, and visits every node once exactly on trees |
| `BvhOracle.AssertContractHolds` | fuzz/fuzz_bvh.cpp:58-129 | passes exactly what meets the contract |
| `BvhOracle.TestOneInput` | fuzz/fuzz_bvh.cpp:135-147 | for all input bytes, whatever the loader accepts meets the contract |
| `BvhScene.BuildStoreLoad` | src/scene/bvh.cpp:226-522 | build, serialize and load of any non-empty scene within the caps succeeds and returns the same hierarchy and statistics |
| `Words.WordRoundTrip` | src/protocol/frame.cpp:18-41 | little-endian words and four bytes are one to one |
| `WireFormat.WrittenValue` | src/protocol/frame.cpp:18-41 | the least significant byte comes first |
| `WireFormat.FrameLayout` | include/p2pgpu/protocol/frame.hpp:11-18 | magic, version, flag, envelope length and a zero word lie at bytes 0, 4, 6, 8 and 12, the envelope at 16 and the payload behind it |
| `WireFormat.SplitIs` | src/protocol/frame.cpp:68-152 | a frame is cut at the length it declares, or refused for the first check it fails, in the order of the checks |
| `Frames.ParseEncoded` | src/protocol/frame.cpp:45-66 | parsing an encoded header gives the header |
| `Frames.EncodeParsed` | src/protocol/frame.cpp:45-66 | encoding a parsed header gives the bytes |
| `Frames.EncodeHeader` | src/protocol/frame.cpp:60-66 | writes the sixteen header bytes in place |
| `Frames.EncodeFrame` | src/protocol/encode.cpp:9-28 | header, envelope and payload, in that order and nothing else |
| `Frames.SplitEncodedIff` | src/protocol/frame.cpp:68-152 | splitting an encoded frame gives back envelope and payload if and only if both are within their caps, 32-bit truncation of the length included |
| `Frames.AcceptedReencodes` | src/protocol/frame.cpp:127-142 | an accepted frame with no unknown flag re-encodes to the same bytes |
| `Frames.AcceptsExactlyEncodings` | src/protocol/frame.cpp:68-152 | so the accepted frames with known flags are exactly the encodings within the caps |
| `Assets.ChunksTile` | src/coordinator/session.cpp:1014-1044 | chunks lie end to end, only the last is short, none is empty |
| `Assets.ChunkIs` | src/coordinator/session.cpp:1014-1044 | chunk i is the asset from byte 16384 i on, up to 16384 bytes of it |
| `Assets.ServedEndIs` | src/coordinator/session.cpp:1028-1038 | a request gets the chunks from the first asked for, at most 64, below what was asked and what exists, and none within 64 of the 32-bit limit |
| `Assets.CheckIs` | src/protocol/invariants.cpp:105-130 | a chunk passes exactly with the right count, an index below it, and a full length or as the last; and which fault any other has |
| `Assets.AsksIs` | src/worker-core/task_loop.cpp:1053-1074 | the worker asks exactly when chunks are missing and a multiple of 64 is in, for 64 from the first missing |
| `Assets.OnAssetRequest` | src/coordinator/session.cpp:1014-1059 | serves consecutive chunks from the first asked for, at most 64, none past the end, each with its true bytes; misses exactly when there is nothing to send |
| `Assets.HonestChunkPasses` | src/protocol/invariants.cpp:105-130 | every chunk so served passes the receiver's check |
| `Assets.Fetch.Handle` | src/worker-core/task_loop.cpp:1076-1168 | keeps exactly the whole, in-range, unseen chunks, ignores exactly the repeats, drops the fetch on any other; asks again at every 64th chunk kept, and when all are there finishes with the bytes or rejects them |
| `Assets.Fetch.RequestMissing` | src/worker-core/task_loop.cpp:1053-1074 | the scan asks for a batch from the first missing chunk on |
| `Assets.Fetch.Reject` | src/worker-core/task_loop.cpp:1646-1673 | bytes from the coordinator end the fetch; bytes that came while a peer was tried are wiped and the next source is tried |
| `Assets.Fetch.TryNext` | src/worker-core/task_loop.cpp:1346-1408 | the next peer if there is one, else a request to the coordinator for the first batch, whatever is already here |
| `Assets.Fetch.Store` | src/worker-core/task_loop.cpp:1151-1157 | a write lands inside the buffer and disturbs no chunk stored before |
| `Assets.Deliver` | src/worker-core/task_loop.cpp:1125-1168 | true chunks in any order and with any repeats fill exactly their own positions, and the fetch ends with the asset exactly when all have come |
| `Assets.AssembledIffHonest` | src/worker-core/task_loop.cpp:1571-1586 | a full buffer is the asset exactly when every chunk kept is the asset's |
| `Assets.FullIffWhole` | src/worker-core/task_loop.cpp:1163-1164 | the received count reaches the total exactly when every chunk is in, and then the buffer is the asset |
| `Transfers.EndsIff` | src/worker-core/task_loop.cpp:1053-1074 | answering request after request ends with all chunks if and only if each batch brings the rest or enough new chunks for the next request |
| `Transfers.Resume` | src/worker-core/task_loop.cpp:1396-1408 | a fallback whose answers all arrive ends with the asset if and only if that holds of the chunks already there and each of them is the asset's |
| `Transfers.FirstBatchCompletesIff` | src/worker-core/task_loop.cpp:1380-1390 | with nothing past the first batch, it completes if and only if some chunk of that batch is missing |
| `Transfers.FallBackAddsNothing` | src/worker-core/task_loop.cpp:1396-1408 | falling back behind an earlier request changes nothing: what it asks for is there or already on its way |
| `Transfers.InOrderCompletesIff` | src/worker-core/task_loop.cpp:1396-1408 | with the first r chunks in, if and only if r is below 64 |
| `Transfers.FetchStalls` | src/worker-core/task_loop.cpp:1163-1167 | a peer that sends 64 true chunks, one ahead of its turn, leaves the fetch unfinished although the coordinator answers every request |
| `Transfers.FetchAll` | src/worker-core/task_loop.cpp:1396-1408 | without peers a fetch always ends with the asset |
| `Assets.WrappedRequestIffNothingServed` | src/coordinator/session.cpp:1032-1038 | a satisfiable request goes unanswered if and only if its start is within a batch of the 32-bit limit |

## Left out

- Messages, transports, SQL, HTTP, GPU code, scripts, metrics and the event log: a verified message is a datatype, the tables are maps, one transaction is one update that may fail at any row.
- Checksums are numbers and comparators other than equality are arbitrary relations; how far a dissenter was off (`dissent_max_ulp`) and what that does to reputation is not modelled.
- Task sizes, required agreement, blacklists, throttling, benchmark scores and spot-check picks are inputs to a step, as chosen by `ComputeTaskSize`, `RequiredAgreementFor` and the pool; `PeekNextJob` only selects the size, because a grant with nothing queued and nothing to carve fails without a change.
- The order in which hash maps and tables are visited is an argument; theorems hold for every order that visits each key once.
- Ids, units and times are unbounded natural numbers; 32-bit truncation is modelled in the frame length, the chunk index and the loader, not in unit counts.
- Every job's kernel is registered; a task of an unregistered kernel is left in validation by `OnResultHeader` (`src/coordinator/session.cpp:1344-1346`), and is never built for or sent.
- `in_flight_results_` is erased from but never filled in the code, so it has no effect and no field here.
- Asset grant counters, revoke messages and reputation rows are not part of the state.
- Stores.Store.LoadAll: queries that fail, reputation rows, and a stored state outside the enumeration (`src/coordinator/store.cpp:333-336`) are not modelled.
- Stores.Store.Flush: only a failing write is modelled, not a failing BEGIN or COMMIT.
- Ballots.Judge: the deviation figures and the detail text of a verdict are left out.
- Sessions.Session.OnLeaseRequest: the refusals before the loop (no record, no score, abusive, blacklisted) and the contents of the message sent per task are left out; kernels' parameter layouts are a function from kernel names.
- Sessions.Session.OnResultHeader: reputation, sizing and revoke messages are left out; what the pool does with a checksum it is given (it keeps each range once, and 256 at most) and the compositor with a payload are not repeated there.
- Remembering.RemembersAgreedIff: every standing is taken to be possible for every voter at any time.
- Polls.RunsPaintAgreedIff: asks for a registered kernel that can tell two answers apart, as every exact one can; a setup without one is not decided.
- Honesty.AnswersAreDistinct: voters are distinct per task, not per family; a replica starts with no prior workers, as in the code.
- Progress.RunAnswersBounded: assumes honest workers, an exact kernel and one quota, since lying answers can force validation to restart; a run of one process, since a crash forgets answers (`Progress.AnswersAfterCrash` starts over from there).
- Progress.OtherStepsCost: a probe or a race adds k to the bound, because each is one more task that needs its own votes.
- BvhLoader.LoadBvh: which reason a rejected input is given is not specified, only that it is rejected exactly when it must be.
- BvhBuilder.Builder.Build: boxes and centroids are real numbers; rounding, infinities and NaN are left out, and a stored float is an arbitrary 32-bit word per real. `std::partition`, whose order within a side is unspecified, is one left-to-right scan with swaps.
- BvhLoader.SerializeBvh: hierarchies of 4 GiB or more, whose offsets would wrap, are not modelled.
- BvhScene.BuildBvh: scenes of 2^31 primitives or more, whose leaf counts would reach the flag bit, are not modelled.
- Compositing.Compositor.RenderRgba: exposure, gamma and rounding are one arbitrary function, and finite colours are real numbers.
- Rendering.EveryRenderTaskBuilds: speaks of listed tasks, `Rendering.EveryTaskBuildsIff` of all; the camera and scene fields of the parameters, the contents of the other kernels' parameters and `Mix32` are left out.
- Frames.SplitEncodedIff: alignment of the buffer is a flag, not an address.
- Assets.Fetch.Handle: the hash and the loader's verdict are one predicate on the bytes; the timers that give up a peer or a silent fetch, and the parked tasks waiting for it, are not modelled.
- Transfers.Resume: no other answer is on its way when the worker falls back; if one is, falling back changes nothing (`Transfers.FallBackAddsNothing`).
- Picture.ShowsWholeTileIff: speaks of listed tasks; of a probe's window only its count matters (`Picture.WholeIffFull`).
- Camera, scene and TOML parsing, ray tracing, random streams and image statistics: outside the core.
