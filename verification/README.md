# Fireworq in Dafny

Fireworq is a job queue on top of MySQL with primary and backup nodes.  This
project models the parts that decide whether a job can be lost, duplicated or
stuck, and proves what they promise over every run, every interleaving and every
input.  `dafny verify dfyconfig.toml` checks all of it.

| file | what it models |
|---|---|
| `GoInt.dfy`, `Sets.dfy`, `Sorting.dfy` | 64-bit wrap-around and truncating division; cardinality; the sort done outside the database |
| `Jobs.dfy` | jobs, results, the decision of a completion, the retry delay |
| `Store.dfy` | the job table and its statements, each one atomic step |
| `MysqlQueue.dfy` | the loops of one node around these statements: Pop, Recover and the rest |
| `Election.dfy` | the activators and the named lock that elects the primary |
| `Cluster.dfy` | any number of nodes over one table: pops, completions, recovery, elections, lost sessions, lost replies, failed commits, crashes |
| `Exclusive.dfy` | one holder per job, and exactly which steps break it |
| `PopWindow.dfy` | what other nodes do between the two queries of a Pop |
| `Failover.dfy` | runs of two nodes in which a job is handed out twice, launched early, or vanishes |
| `Counters.dfy` | the counters of a queue over the runs of a cluster |
| `Dispatcher.dfy` | event loop, kicker, workers, semaphore and shutdown |
| `InMemoryQueue.dfy`, `TrackedQueue.dfy` | the in-memory heap of shared job objects; counters and the statistics decorator |
| `Cursor.dfy`, `Paging.dfy`, `Listings.dfy` | cursors, keyset pagination, the inspector and the failure log |
| `Reload.dfy`, `ReloadRuns.dfy` | queue definitions, revisions and reloads; runs in which a change goes unnoticed or one queue causes two rounds |
| `Buckets.dfy` | the Redis buckets of the dispatch statistics |

Step systems (`Election`, `Cluster`, `Dispatcher`, `Reload`) have a type of steps, a
predicate `Enabled`, a function `Do`, and runs as sequences of steps; a theorem about
`After(INITIAL, steps)` is about every reachable state.  Code that updates state in
place is a class or a method with loop invariants, proved against functions on the
old state.

## Results that contradict an expectation

* A node can hold a job twice: Pop ignores the result of its commit
  (`Failover.HandedTwice`).  Over every run, hand-outs are exactly the returns of the
  row, plus one if it is out, plus the launches not committed
  (`Cluster.DeliveryCount`); the retry budget and the accounting of jobs hold anyway.
* Two nodes can work on the same job after a failover, because a recovery takes back
  jobs that a deposed node still works on (`Failover.TwoHolders`).  A step keeps every
  copy the only one, and current, exactly when it recovers no such job and commits
  its launches (`Exclusive.StepKeepsIff`).
* A job given up can disappear without a trace (`Failover.Vanished`).  The failure log
  drops the error of its insertion (a shadowed variable), and the job is deleted all
  the same.  Over every run a job is in the log exactly when some give-up of it was
  inserted (`Cluster.LoggedIff`).
* A stale completion between the two queries of Pop can make it launch a job early
  (`Failover.EarlyLaunch`); the last update of the row decides (`Store.StillDueIff`),
  and with one popper and no stale copies it does not happen
  (`PopWindow.PopsEarliestDue`).
* The branch of the activator that activates a node because it already holds the
  lock never turns a backup into a primary: a node becomes active only after a
  recovery (`Election.OnlyRecoveryActivates`).  The comment in the code expects the
  branch to cover a lost reply of GET_LOCK, but that error closes the connection.
* The pages of the inspector can miss jobs, because the cursor bounds the id
  independently of the time (`Paging.InspectorPages` says exactly when, and which).
* A cursor with an id of 2^63 or more is not readable and starts the listing over
  (`Paging.LargeIdStartsOver`).
* A queue definition that is written but whose revision bump fails is not noticed
  (`ReloadRuns.Unnoticed`), and repeating the request, anywhere and any number of
  times, does not help (`Reload.StaysStale`): an Add bumps the revision exactly when
  it changes a table (`Reload.AddBumpsIff`).
* The creation of one default queue can cause two rounds of reloading, not one, when
  two services create it at the same time (`ReloadRuns.TwoRounds`).  With one such
  service it is one (`Reload.ReloadsStop`), and with any number sharing that queue
  it is never more than two, plus the bumps already under way
  (`Reload.SharedReloadsStop`).
* The statistics decorator miscounts exactly one case with the in-memory driver: a
  retryable failure with one retry left is recorded as permanent
  (`TrackedQueue.Queue.CompleteAndRecord`).
* A dispatcher without workers gets stuck with its first job
  (`Dispatcher.FirstJobBlocks`).  From any state, a run can get stuck before stop is
  reported exactly when there are no workers, the loop was not told to stop, and it
  has a job or can still get one (`Dispatcher.StuckIff`).

## Model

| member | source | states |
|---|---|---|
| Jobs.NextDelayExactIff | jobqueue/job.go:90-92 | the delay in milliseconds is a thousand times the seconds exactly up to 9223372036 seconds, and in one further stretch where the overflow cancels out |
| Jobs.OutcomeByStatus | jobqueue/result.go:3-39 | a success and a permanent failure end a job; any other status is a failure, retried as long as there are retries |
| Store.ApplyKeepsWellFormed | jobqueue/mysql/jobqueue.go:251-373 | every statement keeps ids below the auto-increment counter and keeps a row grabbed exactly when its grabber is not NULL |
| Store.PreselectionIsComplete | data/jobqueue/mysql/query/grab_jobs.sql:1-5 | every claimed row whose time has come is preselected, or the limit is reached by rows that are not later |
| Store.PopSelection | jobqueue/mysql/jobqueue.go:162-275 | with one popper and no stale copies, Pop gets every preselected row not deleted meanwhile, unchanged and due, every row that was due and was not deleted unless the limit is reached, and leaves no earlier claimed row behind |
| Store.CalmRun | data/jobqueue/mysql/query/grab_jobs.sql:1-5 | under such statements rows claimed before stay as they are or disappear, and rows claimed since have a time no earlier than the preselection |
| Store.StillDueIff | data/jobqueue/mysql/query/grabbed_jobs.sql:1-3 | under any statements of any clients, a preselected row that survives is still due exactly when the last update of it, if any, set a time that has come |
| Store.GoneStaysGone | data/jobqueue/mysql/query/delete_job.sql:1-2 | no sequence of statements brings back a deleted id |
| Store.LaunchedOnce | data/jobqueue/mysql/query/launch_jobs.sql:1-3 | a launched row is not launched again by any connection before an update or a recovery of that row |
| Store.RecoverAll | data/jobqueue/mysql/query/recover_jobs.sql:1-4 | recovering the orphans brings back exactly the rows grabbed by other connections, changes only their status and grabber, and every row still grabbed is this connection's own |
| Store.RecoverBatches | jobqueue/mysql/jobqueue.go:325-372 | two batches of a recovery have the effect of one |
| Store.RecoverBatchShrinks | data/jobqueue/mysql/query/orphan_jobs.sql:1-3 | a batch takes exactly its ids out of the set of orphans |
| MysqlQueue.SortByTime | jobqueue/mysql/jobqueue.go:269-273 | the jobs in order of next try, none lost or duplicated |
| MysqlQueue.Queue.Push | jobqueue/mysql/jobqueue.go:117-147 | a new id, one new claimed row with what was pushed, all other rows untouched; an error if the statement fails or its answer is lost |
| MysqlQueue.Queue.Preselect | jobqueue/mysql/jobqueue.go:165-191 | the claimed rows whose time has come, all of them or the earliest up to the limit, in order |
| MysqlQueue.Queue.ScanLocked | jobqueue/mysql/jobqueue.go:206-239 | whatever order the locked rows come in, the overwritten ids are the ids of the jobs, and these are the preselected rows still claimed |
| MysqlQueue.Queue.LockAndLaunch | jobqueue/mysql/jobqueue.go:196-275 | the rows launched are exactly those returned, as they were when locked; what is returned does not depend on the commit |
| MysqlQueue.Queue.Pop | jobqueue/mysql/jobqueue.go:149-276 | the whole Pop with any statements of others in between and any failure: errors when inactive, closed or a query fails; every claimed row whose time has come is selected or the limit is reached; the rows returned are then grabbed by this connection, and no others, or nothing is launched if the commit fails; sorted, within the limit, and, if the others are calm, due, earliest and complete up to the limit |
| MysqlQueue.Queue.Delete | jobqueue/mysql/jobqueue.go:278-290 | exactly that row disappears, and nothing happens if it is gone or the statement fails |
| MysqlQueue.Queue.Update | jobqueue/mysql/jobqueue.go:292-310 | creates no row, takes the counts of the copy with one failure more and one retry less, delays by the retry delay (if that is at most 9223372036 seconds), keeps the creation time and the content, touches no other row; nothing happens if the statement fails |
| MysqlQueue.Queue.SelectOrphans | data/jobqueue/mysql/query/orphan_jobs.sql:1-3 | distinct orphans, all of them or a thousand |
| MysqlQueue.Queue.Recover | jobqueue/mysql/jobqueue.go:312-373 | ends; the rows brought back were grabbed by other connections and change in status and grabber only, all other rows stay; if no statement fails it reports the number of orphans there were and no other connection's row is left grabbed; otherwise it reports nothing |
| Election.StepKeepsInv | jobqueue/mysql/activator.go:68-213 | every step of every activator and every lost session keeps the invariant of the election |
| Election.SinglePrimary | jobqueue/mysql/activator.go:68-142 | at most one active node has a live session that acquired the lock, and that session holds it |
| Election.OnlyRecoveryActivates | jobqueue/mysql/activator.go:94-136 | a node turns active only by finishing a recovery |
| Election.DemotedBy | jobqueue/mysql/activator.go:68-107 | a primary stops being one only by finding that its session does not hold the lock, by being told to stop, or by a crash |
| Election.DeposedBy | jobqueue/mysql/activator.go:94-176 | it finds so only without an answer, without a live session, or if the lock is not its own |
| Election.HandOver | jobqueue/mysql/activator.go:178-213 | when the lock is granted, every other node still active has lost the session it was elected with |
| Election.InactiveBeforeRelease | jobqueue/mysql/activator.go:75-130 | a node gives up its session of its own accord only when inactive |
| Election.ReleasedByDeath | jobqueue/mysql/activator.go:159-165 | the lock is released only by the death of its session |
| Election.StopEnds | jobqueue/mysql/activator.go:68-83 | in every run a node that was told to stop gets on by at most seven steps, can always take the next one until it has ended or crashed, and then is inactive and without a session |
| Election.StopTakesEffect | jobqueue/mysql/activator.go:48-56 | so it is after it is told to stop, wherever it stands |
| Election.NoRoundAfterStop | jobqueue/mysql/activator.go:80-83 | in every run a node that was told to stop and is not in the middle of a round is never granted the lock and never turns active again |
| Cluster.StepKeepsInv | jobqueue/mysql/primary_backup.go:26-54 | every step of a cluster, failures included, keeps the accounts, the retry budget, the failure log, the delivery counts and the election |
| Cluster.RunKeepsInv | jobqueue/mysql/primary_backup.go:26-54 | every run keeps them |
| Cluster.NoJobLost | jobqueue/jobqueue.go:93-130 | in every run a pushed job is a row, or it was removed because it succeeded, was given up (and is in the failure log if the insertion succeeded), or was explicitly deleted; never both |
| Cluster.LoggedIff | jobqueue/mysql/failure_log.go:23-51 | in every run a job is in the failure log exactly when some step gave up a copy of it and the insertion succeeded |
| Cluster.NoneVanishes | jobqueue/jobqueue.go:108-125 | in every run in which the insertions for this job succeed, if it was pushed and is neither stored nor deleted explicitly, it has succeeded or is in the failure log |
| Cluster.RemovedBy | data/jobqueue/mysql/query/delete_job.sql:1-2 | a row leaves the table only by a completion of that job or an explicit deletion |
| Cluster.CompletionTakesEffect | jobqueue/jobqueue.go:93-130 | after a success, the deletion of a job given up or an explicit deletion its row is gone, after a failure with retries left it is claimed with new counts and a later time, and no other row changes |
| Cluster.RemovedForever | jobqueue/mysql/jobqueue.go:292-310 | a removed job never comes back, whatever stale copies and recoveries do |
| Cluster.RetryBudget | jobqueue/job.go:44-100 | in every run retries left and failures of a stored job add up to what it was pushed with, and its content is unchanged |
| Cluster.AttemptNumbers | dispatcher/worker/http.go:98 | in every run an attempt number is between one and one more than the retries, and at most the number of deliveries |
| Cluster.LoggedFailures | jobqueue/mysql/failure_log.go:36-48 | in every run a logged failure count is between one and one more than the retries pushed, and it is the latter exactly when no retry was left, as for every failure that is not permanent |
| Cluster.DeliveryCount | jobqueue/mysql/jobqueue.go:251-267 | in every run hand-outs are the updates and the recoveries that sent the row back, plus one if it is out, plus the launches not committed |
| Cluster.OnePrimary | jobqueue/mysql/primary_backup.go:44-54 | in every run there is at most one primary with a live session |
| Cluster.OnlyElectedNodesWork | jobqueue/mysql/primary_backup.go:26-54 | a node begins a Pop or recovers jobs only if its activator holds the lock or has lost the session that held it |
| Cluster.PopStages | jobqueue/mysql/jobqueue.go:149-276 | nothing is preselected without the check for being active, and nothing handed out without the preselection |
| Cluster.NothingOverClosedConnection | jobqueue/mysql/jobqueue.go:155-160 | over a closed connection nothing is preselected, launched or recovered |
| Cluster.CrashedHoldNothing | jobqueue/mysql/jobqueue.go:312-373 | in every run what a process held dies with it |
| Cluster.NoOrphansWhileAlone | jobqueue/mysql/activator.go:133-136 | after a recovery no orphan appears before another connection launches jobs |
| Exclusive.OneHolder | jobqueue/mysql/jobqueue.go:196-276 | in every run, failovers and recoveries included, in which no recovery takes back a job somebody still holds and launches are committed, two copies of a stored job are the same copy, held by one node, and it is current |
| Exclusive.StepKeeps | jobqueue/mysql/jobqueue.go:196-373 | every such step keeps the copies current, sole and counted |
| Exclusive.StepKeepsIff | jobqueue/mysql/jobqueue.go:196-373 | a step keeps this exactly when it is a harmless one |
| Exclusive.AttemptIsDelivery | dispatcher/worker/http.go:98 | in such runs a job being worked on was handed out once per attempt and once more per recovery of its row |
| PopWindow.CalmSteps | jobqueue/mysql/jobqueue.go:278-310 | what other nodes do to the table in such runs, with one popper, are calm statements |
| PopWindow.PopsEarliestDue | jobqueue/mysql/jobqueue.go:162-275 | in every such run a Pop gets every preselected job still stored, unchanged and due, every job that was due and is still stored unless the limit is reached, and leaves no earlier claimed job behind |
| Failover.HandedTwice | jobqueue/mysql/jobqueue.go:251-267 | a run in which a launch is not committed and the node then holds the job twice |
| Failover.TwoHolders | jobqueue/mysql/jobqueue.go:312-373 | a run in which a deposed node works on a job, the new primary recovers it, and both hold it |
| Failover.EarlyLaunch | data/jobqueue/mysql/query/update_job.sql:1-4 | a run in which, for any positive delay, a stale completion between the two queries makes the new primary launch a job that is not due |
| Failover.Vanished | jobqueue/mysql/failure_log.go:23-51 | a run in which a job fails, is not logged, and is gone |
| Counters.CountersBalance | jobqueue/stats.go:42-84 | in every run of a cluster the counters of a process balance: completes are successes plus permanent failures, which are failures, and every popped job was completed, dropped or is held |
| Counters.CountersAreNumbers | jobqueue/jobqueue.go:93-130 | in every run each counter is the number of the completions it is about |
| Dispatcher.BufferSize | dispatcher/dispatcher.go:42-48 | the configured size, 1000 without one, or the number of workers if that is larger |
| Dispatcher.StepKeepsInv | dispatcher/dispatcher.go:163-213 | every step of loop, kicker, workers and stopper keeps order, conservation, bounds and handshake |
| Dispatcher.Conservation | dispatcher/dispatcher.go:163-213 | in every run each popped job is in exactly one place, at most MaxWorkers run, the buffer does not overflow, jobs start in the order popped |
| Dispatcher.TruncatedBeyondRoom | dispatcher/dispatcher.go:205-208 | the jobs of an answer that are dropped are exactly those beyond the room asked for |
| Dispatcher.NoJobDropped | dispatcher/dispatcher.go:192-213 | in every run in which no answer is too long nothing is dropped: each popped job is between buffer and workers, completed, or given up, and none is given up before the loop was told to stop |
| Dispatcher.KickAsks | dispatcher/dispatcher.go:192-195 | a kick that finds room asks for exactly that room, and one that finds none asks for nothing |
| Dispatcher.PopRound | dispatcher/dispatcher.go:192-213 | from a kick with room, any answer ends with its first jobs that fit appended to the buffer in order |
| Dispatcher.NeverBlocksOnOwnBuffer | dispatcher/dispatcher.go:209-211 | every send of popped jobs finds room |
| Dispatcher.Progress | dispatcher/kicker/polling.go:37-64 | no deadlock with at least one worker: before stop is reported somebody can move without a new tick, unless there is nothing to do |
| Dispatcher.ShutdownEnds | dispatcher/dispatcher.go:150-190 | with at least one worker, from any state, every run has a bounded number of steps for each tick, a bounded number in all once the kicker has taken the stop signal, and can go no further exactly when stop is reported |
| Dispatcher.NothingAfterReport | dispatcher/dispatcher.go:171-189 | after the report no worker runs, all tokens are back and no step, hence no Pop or Complete, is possible |
| Dispatcher.StuckWithoutWorkers | dispatcher/dispatcher.go:175-177 | with no workers no run reports stop once the loop has taken a job |
| Dispatcher.FirstJobBlocks | dispatcher/dispatcher.go:163-213 | a new dispatcher without workers takes its first job |
| Dispatcher.StuckIff | dispatcher/dispatcher.go:150-190 | from any state some run gets stuck before stop is reported exactly when there are no workers, the loop was not told to stop, and it has a job or can still get one |
| Dispatcher.Buffer.PopJobs | dispatcher/dispatcher.go:192-213 | asks for exactly the free room, keeps the first jobs that fit in order, never overfills |
| InMemoryQueue.RootIsEarliest | jobqueue/inmemory/jobqueue.go:54 | the root of the heap is an earliest job |
| InMemoryQueue.Up | jobqueue/inmemory/jobqueue.go:131-147 | moving up restores the heap and keeps the jobs |
| InMemoryQueue.Down | jobqueue/inmemory/jobqueue.go:131-155 | moving down restores the heap and keeps the jobs |
| InMemoryQueue.Queue.Insert | jobqueue/inmemory/jobqueue.go:35-42 | the heap gains exactly that job |
| InMemoryQueue.Queue.RemoveRoot | jobqueue/inmemory/jobqueue.go:44-61 | the heap loses exactly its root |
| InMemoryQueue.Queue.Push | jobqueue/inmemory/jobqueue.go:35-42 | one new job object with what was pushed joins the heap |
| InMemoryQueue.Queue.Pop | jobqueue/inmemory/jobqueue.go:44-61 | takes as many jobs as are due up to the limit, in order, none later than any job left, no due job left unless the limit is reached, and loses none |
| InMemoryQueue.Queue.Update | jobqueue/inmemory/jobqueue.go:67-82 | one retry less and one failure more although the new values are read from the object being overwritten, and the heap stays one |
| TrackedQueue.ClassificationAgrees | stats/jobqueue.go:38-40 | the recorded class is the branch taken exactly when the completion did not change whether retries are left; always so for MySQL, which leaves the copy alone |
| TrackedQueue.Queue.Push | jobqueue/jobqueue.go:65-77 | counts one push and keeps the counters balanced |
| TrackedQueue.Queue.Pop | jobqueue/jobqueue.go:79-91 | counts the jobs popped, which move from the heap into flight: due, in order, none later than a job left, and no due job left unless the limit is reached |
| TrackedQueue.Queue.Complete | jobqueue/jobqueue.go:93-130 | each outcome changes exactly its counters; completes are successes plus permanent failures, pops and pushes stay balanced with jobs in flight and in the heap |
| TrackedQueue.Queue.CompleteAndRecord | stats/jobqueue.go:25-43 | nothing is recorded without an owner; over the in-memory driver the record differs from the branch taken exactly for a retryable failure with one retry left |
| Cursor.AtoiOfFormat | jobqueue/mysql/inspector.go:70-71 | a printed number is read back exactly when it fits 64 bits signed |
| Cursor.SplitJoined | jobqueue/mysql/inspector.go:69 | splitting at the first comma undoes joining, when the first part has none |
| Cursor.Base64RoundTrip | jobqueue/mysql/inspector.go:68 | decoding undoes encoding for every byte sequence |
| Cursor.Base64Vectors | jobqueue/mysql/inspector.go:68 | the vectors of section 10 of RFC 4648 and the standard alphabet |
| Cursor.CursorRoundTrip | jobqueue/mysql/inspector.go:152-156 | a cursor is read back as its time and id exactly when the id fits 63 bits |
| Cursor.CursorText | jobqueue/mysql/inspector.go:150-158 | a cursor is the two numbers in decimal with a comma between them, in base 64 |
| Cursor.TimeRoundTrip | jobqueue/mysql/inspector.go:279-280 | milliseconds survive the conversion to a time and back exactly up to 9223372036854 |
| Cursor.NanoOrder | jobqueue/mysql/inspector.go:136-148 | within that range the order of nanoseconds is the order of milliseconds |
| Paging.MatchesIff | data/jobqueue/mysql/query/inspect_jobs.sql:2-6 | what the clauses of each listing demand of a row relative to the row of the cursor |
| Paging.SortedIsUnique | data/jobqueue/mysql/query/failed_jobs.sql:3 | a set of rows can be ordered in one way only |
| Paging.NextQuery | data/jobqueue/mysql/query/inspect_jobs_asc.sql:2-6 | the query of the next page selects what was left out less what the id of its first row excludes |
| Paging.WalkIsSorted | jobqueue/mysql/inspector.go:150-160 | following cursors repeats nothing and keeps the order |
| Paging.FollowIsWalk | jobqueue/mysql/inspector.go:68-77 | following encoded cursors from query to query visits what walking along one ordered listing does |
| Paging.MissedIff | data/jobqueue/mysql/query/inspect_jobs.sql:4-5 | a row is missed exactly when a page starts before it at a row whose id excludes it |
| Paging.CompleteIff | jobqueue/mysql/inspector.go:251-259 | the pages are the whole listing exactly when no page start excludes a later row |
| Paging.LexicographicIsComplete | data/jobqueue/mysql/query/failed_jobs.sql:1-3 | the clauses of the failure log exclude no later row |
| Paging.AgreeingIsComplete | jobqueue/mysql/inspector.go:163-262 | nothing is missed when ids and times agree in order |
| Paging.RetriedJobHidesOthers | jobqueue/mysql/inspector.go:168-178 | three rows of which one is never listed |
| Paging.FailureLogIsComplete | jobqueue/mysql/failure_log.go:74-125 | following the cursors gives the whole failure log in order, each entry once, for both orders |
| Paging.InspectorPages | jobqueue/mysql/inspector.go:63-262 | following the cursors of the inspector, in both directions: order, no repetition, completeness and omissions characterised |
| Paging.LargeIdStartsOver | jobqueue/mysql/inspector.go:68-77 | a cursor stands for its row exactly when the id is readable; otherwise the listing starts over |
| Listings.FindFailures | jobqueue/mysql/failure_log.go:74-125 | a page is the first rows of the ordered query for its cursor, each with its entry, the latest first; the first page has every failure or as many as the limit; the next cursor is that of the first row left out |
| Listings.ListFailures | jobqueue/mysql/failure_log.go:66-125 | reading page after page until there is no cursor gives every failure of the log once, the latest first |
| Listings.FindJobs | jobqueue/mysql/inspector.go:63-262 | reading ids, reading the rows again in any order and sorting outside the database gives the page of one ordered query; every job shows its row, has the status and lies on the right side of the fixed time; the first page has exactly the rows with the status within the two times, or as many as the limit |
| Listings.StartIs | data/jobqueue/mysql/query/inspect_jobs.sql:1-6 | the rows a listing starts from are those with the status within the two times |
| Listings.ListJobs | jobqueue/mysql/inspector.go:63-262 | reading page after page until there is no cursor gives rows with the status within the two times, in order, each once, and all of them if later jobs have larger ids |
| Listings.SortJobs | jobqueue/mysql/inspector.go:134-148 | the jobs in the order of the comparison, none lost, whatever their times |
| Listings.Reread | data/jobqueue/mysql/query/inspect_jobs.sql:1-6 | reading rows again by id gives exactly those that still have the status, each once |
| Listings.InspectedMaxRetries | jobqueue/mysql/inspector.go:282 | in every run of a cluster the inspected maximum of retries is the one pushed |
| Listings.InspectedFailCount | jobqueue/mysql/inspector.go:264-286 | in every run of a cluster the inspected fail count of a job never handed out is zero, and without stale copies it is the number of failures that sent the job back |
| Listings.InspectedAfterRetry | jobqueue/mysql/inspector.go:264-286 | after a failure with retries left it is one more than that of the copy, and the job shows as claimed at its later time |
| Reload.ValidateIs | service/service.go:149-167 | a definition is accepted exactly when its rate is not negative and rate and burst are both set or both not; it keeps its throttle, is polled every 100 milliseconds if throttled, keeps what is given and gets the defaults otherwise, and is stable under validation |
| Reload.StepKeepsInv | service/config_watcher.go:15-52 | every step of services and writers, failing statements and crashes included, keeps the agreement of current services |
| Reload.ReloadAgrees | service/service.go:237-300 | in every run an idle service with the current revision runs exactly the names of the definition table, each with its stored definition and its stored throttle, or without a limit if it has none, unless some change is not announced |
| Reload.FindPuts | repository/mysql/queue.go:104-130 | a find puts the queue as its rows in the two tables say, or nothing if it is not stored |
| Reload.AddTakesEffect | service/service.go:149-178 | an Add that changes something stores the queue, bumps the revision and runs it |
| Reload.DeleteTakesEffect | service/service.go:113-131 | a deletion removes both rows, bumps the revision and stops the queue |
| Reload.CatchesUp | service/config_watcher.go:35-52 | a service behind the revision that reloads without interference runs exactly what is stored and is up to date |
| Reload.AddBumpsIff | repository/mysql/queue.go:21-60 | an Add bumps the revision exactly when it changes one of the two tables |
| Reload.NeverAnnounced | repository/mysql/queue.go:21-60 | in every run in which requests ask for what is stored already, through any services, the store does not change and nothing is announced |
| Reload.Unmoved | service/config_watcher.go:35-52 | in every run without a bump, an idle service with the current revision does not move, whatever is written to the store |
| Reload.StaysStale | service/config_watcher.go:35-52 | in every run in which requests are only repeated, such a service that runs other definitions than the stored ones goes on doing so |
| ReloadRuns.Unnoticed | repository/mysql/queue.go:50-60 | a run in which a definition is written, its bump fails, and another service is idle, current and runs something else |
| Reload.AnnouncedBefore | repository/mysql/queue.go:21-60 | changes of the tables become announced only by a bump of the revision |
| Reload.TablesBefore | repository/mysql/queue.go:179-199 | a statement after which everything is announced changed nothing |
| Reload.ReloadsStop | service/service.go:258-288 | without external writes a service reloads at most once for what it has not seen and once for each service that still creates its default queue, whatever fails meanwhile |
| Reload.SharedReloadsStop | service/service.go:258-288 | if all services share one default queue, the reloads do not grow with their number: at most one for what is not seen, one for each bump under way, and two for the two tables |
| ReloadRuns.TwoRounds | service/service.go:278-288 | a run in which two services create the same default queue, both bump the revision, and a third one reloads twice |
| Reload.InternalStep | service/service.go:237-288 | without external writes a revision is bumped only by a service that still creates its default queue, and each does so once |
| Buckets.WindowsContain | stats/writer.go:38-49 | a dispatch falls into the window of each bucket it is counted in |
| Buckets.BumpCounts | stats/writer.go:54-65 | which fields a dispatch increments |
| Buckets.Writer.RecordDispatch | stats/writer.go:28-70 | counts a dispatch in three buckets with new times to live and notes when the subscriber was active, and nothing without an owner |
| Buckets.BucketIsExact | stats/writer.go:53-70 | in every run and at any moment a bucket shows exactly its dispatches until its time to live after the last of them is over, and zero from then on |
| Buckets.ReadableFor | stats/writer.go:67-70 | a bucket is readable for two hours, twenty-five hours or seven days after its last dispatch, and no longer |
| Buckets.BucketSums | stats/writer.go:54-65 | in every run, whatever the clock does, totals are successes plus failures, and permanent failures are failures |
| Buckets.WindowIsSumOfInner | stats/writer.go:67-70 | in every run, within an hour or a day, its counters are the sums of the inner buckets still alive |

## Left out

- HTTP handlers, server start, signals, logging, configuration lookup and the routing tables: plumbing around the parts above.
- The requests and responses of the HTTP worker: a worker returns any result; only the attempt number is modelled.
- The rate limiter: waiting for it either proceeds or is cancelled by the shutdown; rate counters and elapsed times are not modelled.
- MySQL itself: statements are atomic, row locks of a transaction hold until its end, auto-increment ids are never reused, connection ids are unique; values out of the range of a column are not modelled.
- MysqlQueue.Queue.Recover: no other client writes during the loop; interleaved batches are steps of `Cluster`.
- Clocks are parameters; Redis applies a pipeline at once, at the second the dispatch was taken.
- Cluster.NoJobLost: a failed update or deletion drops the copy without effect, so the row stays; nothing is said about when it is handed out again. Entries deleted from the failure log on request still count as logged.
- Dispatcher.ShutdownEnds: that a kicker choosing between a tick and the stop signal eventually takes the signal is not modelled; the bound is per tick.
- InMemoryQueue.Queue.Push: the id counter belongs to the queue, while the original shares one counter among queues.
- InMemoryQueue.Up: the two sift loops are those of Go's container/heap, which is not part of the repository.
- TrackedQueue.Queue.CompleteAndRecord: sequential; a job popped again by another goroutine before the decorator reads it is not modelled.
- Listings.FindJobs: times up to 9223372036854 milliseconds and ids below 2^63, as outside these ranges the conversions are shown not to round-trip; payloads are part of the content and not re-encoded.
- Paging.InspectorPages: a fixed table and fixed bounds; the current time that each request takes for the opposite bound does not move between pages.
- Reload.ReloadAgrees: how a running queue is stopped and started, and statements that take effect although they report an error, are not modelled.
- Buckets.BucketIsExact: local time does not shift (no daylight saving), and times are in whole seconds; keys are pairs of an owner and a window; their text, and owners whose names contain colons, are not modelled.
- Buckets.WindowsContain: a clock whose hours and days follow from its seconds; a shift for daylight saving makes two windows share a key.
- Counters.CountersBalance: a completion whose statement fails counts as a dropped copy, although the original counts it as completed; a process that crashes takes its counters with it.
- TrackedQueue.Queue.Complete: the in-memory driver, which has no failure log and whose operations do not fail; over MySQL the counters are those of `Counters`.
- Paging.FailureLogIsComplete: times up to 9223372036854 milliseconds and ids below 2^63, beyond which cursors are shown not to be readable.
