# A model of zero-downtime Postgres failover

This project models, in Dafny, the parts of the repository whose correctness depends on interleavings, failures and
time, and proves what they promise. `dafny verify dfyconfig.toml` checks all of it.

Three connected systems are modelled.

**The failover protocol.** Operators run a pipeline of steps (health check, lock, pause, migrate), each with its own
cleanup, against the failover API of every node. `Pipeline` is the step runner against a stack-free reference
semantics. `PauseNode` is one node's server with its PgBouncer and its scheduled resumes. `Failover` puts any number
of runs, nodes, requests and timers on one clock: every call is free to fail or to lose its answer, a client may give
up on a request that is then served all the same, and an operator's process may vanish anywhere. `FailoverRuns` proves
mutual exclusion, that every run ends and when, and that a finished run made exactly the calls that `Pipeline`
prescribes. `FailoverRequests` tracks each request, `FailoverHistory` reads the whole state off the steps taken,
`FailoverPauses` proves when all nodes are paused together and that no pause is for ever, `FailoverAbandoned` who
changes a PgBouncer and what abandoned requests do, and `FailoverLimits` how much expiry is needed and what giving up
can lead to. `Migration` is the migrate step with its wait for etcd.

**The propagation of the master's address.** `Supervise` has any number of supervisors writing one etcd key, `Proxy`
has the stream, revision filter, retrying fold and PgBouncer of a proxy as one transition system, `EtcdStream` has the
three goroutines of the etcd stream, and `Filters` and `RetryFold` have the loops from which these are put together,
each proved equal to a specification whose laws are then proved. The stages inside `Supervise` and `Proxy` are proved
to be those filters and that fold, and `Propagation` joins the two ends.

**The promotion logic of the resource agent** (the shell script `pgsql`). `WalLocation` shows that padded locations
compare as numbers, `StandbyList` and `StandbyPatterns` when editing the standby list as text is editing it as a list,
`SlaveControl` and `MasterRight` model the two densest functions as methods over the agent's state, `DataStatus` runs
the agents of a whole cluster, and `DataStatusReigns` shows the runs in which all goes well. `Shell` holds the text
tools they use and `Base` the shared types.

Loops and mutable objects of the source are methods and classes here, each tied by its `ensures` to a specification
function; concurrency is a transition system over single operations, and theorems speak of every schedule.

## What the code does not do

Some properties that one would expect hold only under a condition. Each is stated with that condition, and where a
caller could check it, as an equivalence.

- A supervisor that stops while it was the last to write, and wrote another address than the master's, leaves that
  address in etcd if nobody writes afterwards, however many others agree on the master. `Supervise.Agreement` proves
  that this is the only way to a wrong address, `Propagation.MasterReachesPgBouncer` the same for what PgBouncer runs
  with, and `Supervise.StaleWriteOfStoppedSupervisorStays` gives a schedule.
- A client that gives up on a pause request, because its call fails or its process ends, does not take the request
  back. The pause can take effect after all resume calls of the same run have succeeded, and after the lock was
  released (`FailoverLimits.LatePauseAfterResume`, `FailoverLimits.LatePauseAfterUnlock`).
  `FailoverAbandoned.ResumedUnlessAbandoned` says exactly when a node is found paused after a resume.
- A fold whose input is closed while an operation is being retried passes a nil kv on. pkg/streams/fold.go:21-22
  promises retries without end (`RetryFold.ReturnsUnlessClosedMidRetry`).
- `NotifyWhenMaster` sends on a closed channel if the target address shows up at a second revision while it still runs
  (`Migration.NotifyWhenMaster`, `Migration.TwoRevisionsPanic`).
- A pause request without a positive expiry is never undone by the server, although pkg/failover/server.go:106-108
  says that a pause is never left behind (`PauseNode.ExpiryDecides`).
- Requests carry whole seconds. An expiry of a second or more that exceeds the timeout by less than the next whole
  second does not exceed it as sent, and the pause can be over before the migration is requested
  (`FailoverLimits.WholeSecondsDecide`, `FailoverLimits.TruncationLosesPause`). An expiry below one second is sent as
  none, and the servers' resumes are off altogether (`FailoverLimits.SubsecondExpiryNeverResumes`). Nor does
  pkg/failover/failover.go:113-114 hold, that a request is over far before its context, when the timeout exceeds the
  expiry.
- Removing a name from the standby list damages every entry that contains the name, so pg1 and pg10 must not be in one
  cluster (`StandbyList.SetAsyncDeletes`, `StandbyList.RemovingPg1DamagesPg10`). A name with dots is taken for a
  pattern, whose dots match even the list's commas (`StandbyPatterns.SetAsyncDeletesPattern`,
  `StandbyPatterns.DotMatchesComma`).
- With a check count below two, a node that can read no location at all has the master right on its first call
  (`MasterRight.BlindRightOnFirstCall`).
- Excluding a second running primary is not enough to exclude a second LATEST, nor to keep the master-right gate shut:
  the agent checks once that its Postgres is the primary, and writes later. `DataStatus.LatestElsewhere` says which
  writes do the harm, `DataStatus.RuleDecidesOneLatest` and `DataStatus.RuleDecidesGate` what keeps them out.
- `RevisionFilter` also drops a repeated revision, and any that is not positive; pkg/streams/filter.go:36-37 speaks of
  every event that preserves the order (`Filters.RevisionFilter`).

## Model

| member | source | states |
|---|---|---|
| Pipeline.PStep.Defer | pkg/failover/pipeline.go:35-38 | replaces a step's cleanup, it does not add to it, and returns the same step |
| Pipeline.Run | pkg/failover/pipeline.go:8-24 | the loop with its stack of deferred actions calls the same actions in the same order, with the same result, as nested try/finally blocks, whatever each call answers |
| Pipeline.ExecuteClosedForm | pkg/failover/pipeline.go:8-24 | the calls are the actions up to and including the first failure, then the exact reverse of all cleanup of the started steps; the result is that first failure, whatever the cleanup answers |
| Pipeline.StopIsUnique | pkg/failover/pipeline.go:17-19 | a plan and its environment determine the step that fails first |
| Pipeline.FailoverRun | pkg/failover/failover.go:63-72 | the failover, built with Step and Defer, has the calls and the result of the four-stage plan |
| Pipeline.FailoverCleanup | pkg/failover/failover.go:63-72 | for every failure the cleanup is a suffix of Unmigrate, Resume, ReleaseLock, and undoes exactly what was started, successful or not |
| Filters.RevisionFilter | pkg/streams/filter.go:38-58 | sends exactly the inputs whose positive revision is above all earlier ones of their key |
| Filters.RecordsAreExactlyTheRecords | pkg/streams/filter.go:38-58 | output k is the input at the kth such position: nothing is left out or moved |
| Filters.RecordsIncrease | pkg/streams/filter.go:36-37 | per key, revisions of the output strictly increase |
| Filters.RecordsIdempotent | pkg/streams/filter.go:38-58 | filtering twice is filtering once |
| Filters.LastRecordIsNewest | pkg/streams/filter.go:38-58 | the last emission for a key is the newest kv of that key in the input, and there is none exactly if no revision is positive |
| Filters.LastEmissionIgnoresOrder | pkg/cmd/proxy.go:63-66 | reordering or duplicating etcd's events never changes the last emission for a key |
| Filters.DedupeFilter | pkg/streams/filter.go:14-34 | comparing with the last value sent drops exactly the inputs that repeat the last value received |
| Filters.DedupePreservesReplay | pkg/streams/filter.go:12-34 | a reader of the output ends with the same value for every key as a reader of the input |
| Filters.DedupeAtEveryPrefix | pkg/streams/filter.go:12-34 | the same after every prefix of the input, and nothing sent is taken back |
| Filters.DedupeDestutters | pkg/streams/filter.go:12-34 | key by key, the output is the input without repetitions |
| Filters.DestutterHasNoRepeats | pkg/streams/filter.go:12-34 | no value equals the one before it, the first is not empty, and the final value is kept |
| Filters.PollStream | pkg/pacemaker/stream.go:43-75 | the poll loop sends one kv for each alias found, in order, for each successful poll |
| Filters.DedupedPollIsDestutteredHistory | pkg/cmd/supervise.go:88-89 | poll loop and dedupe filter together send, per key, the history of what pacemaker reported under quorum, without repetitions |
| RetryFold.Run | pkg/streams/fold.go:23-47 | the range loop with its goto makes the attempts of the recursive specification and ends the same way |
| RetryFold.FoldLaws | pkg/streams/fold.go:23-47 | attempts go from the first input to the last without a gap, the last one decides how the fold ends, and there are at most as many as inputs and failures |
| RetryFold.EveryInputSettles | pkg/streams/fold.go:21-47 | attempts never go back; every input is applied or superseded by the next one; a fold that returns has applied its last input; attempts are bounded |
| RetryFold.AppliedOnce | pkg/streams/fold.go:24-43 | an input that was applied is never attempted again |
| RetryFold.ReturnsUnlessClosedMidRetry | pkg/streams/fold.go:33-43 | the fold dereferences nil if and only if some attempt at the last input fails and the select then finds the channel closed |
| RetryFold.IdleFoldIsFold | pkg/streams/fold.go:23-47 | inside any larger system whose fold only takes, applies, retries and supersedes, the attempts are those of the fold run alone |
| EtcdStream.Includes | pkg/etcd/stream.go:104-112 | finds an element exactly if it is there |
| EtcdStream.StreamIsSafe | pkg/etcd/stream.go:32-102 | on every schedule, cancelled anywhere: the output closes at most once and only after both senders are through, nothing is sent on a closed channel, and only subscribed keys are sent |
| EtcdStream.NothingIsLost | pkg/etcd/stream.go:45-83 | on every schedule, what was sent is a merge of what the watch delivered for the subscribed keys and of what the gets returned, each in its order, but for one kv in each sender's hand; at closure all of it was sent, exactly once |
| EtcdStream.PollsInTurn | pkg/etcd/stream.go:64-90 | the poller asks for the keys in turn, over and over, and stops only if the context is done |
| EtcdStream.PollerComesBack | pkg/etcd/stream.go:64-90 | until then it can always move on towards its next pass, whether a key has a value or not |
| EtcdStream.EveryEventCanBeSent | pkg/etcd/stream.go:45-54 | for any events, there is a run in which the watch delivers them and exactly those of the subscribed keys are sent, in order, before both channels close |
| EtcdStream.CancelledBySomebody | pkg/etcd/stream.go:32-102 | the stream's context is done if and only if its caller or one of its goroutines has cancelled it |
| EtcdStream.CancelStopsPoller | pkg/etcd/stream.go:85-90 | the caller can cancel at any moment, and from then on the poller can stop, whatever the watcher does |
| EtcdStream.LeftShrinks | pkg/etcd/stream.go:41-100 | once the watch has ended, each step uses up a bounded number of steps left, the winning poll timers being counted |
| EtcdStream.NeverStuck | pkg/etcd/stream.go:41-100 | once the watch has ended, and until both channels are closed, some goroutine can move without waiting for the poll timer |
| EtcdStream.WatchEndLeadsToClosure | pkg/etcd/stream.go:28-102 | with a consumer that keeps receiving, the end of the watch leads to both channels being closed |
| EtcdStream.OnlyUnfairStreamsGoOn | pkg/etcd/stream.go:85-90 | no schedule goes on for ever once the watcher has returned, unless the select never notices a context that it finds done again and again |
| Proxy.InvStep | pkg/cmd/proxy.go:60-78 | one step keeps the order of the revisions and their origin, and lowers none |
| Proxy.NeverRollsBack | pkg/cmd/proxy.go:60-78 | at any two moments of any schedule: PgBouncer's revision is at most the file's, that the fold's, that the filter's, that etcd's; all name kvs of etcd's history; none is lower later |
| Proxy.NewerSupersedes | pkg/streams/fold.go:33-43 | a fold that has failed can always take a newer kv in hand, and goes on with it, or try its own again |
| Proxy.OneAtATime | pkg/cmd/proxy.go:60-78 | on every schedule the fold works on one kv at a time, writing the file before it reloads PgBouncer, and tries again only after a failure |
| Proxy.EachCanLagBehind | pkg/cmd/proxy.go:60-78 | at any stage there can be a newer kv than at the next one, so the order of NeverRollsBack is no equality |
| Proxy.FailuresCanHaveEffects | pkg/cmd/proxy.go:68-78 | an operation that is reported as failed may have written the file, or reloaded PgBouncer |
| Proxy.QuietLeadsToConvergence | pkg/cmd/proxy.go:60-87 | once etcd is quiet and PgBouncer answers, a bounded number of useful steps is left, and none is left exactly when PgBouncer runs with etcd's current value |
| Proxy.ConvergenceIsStable | pkg/cmd/proxy.go:60-78 | nothing but a new value in etcd ends that state |
| Proxy.FilterIsRevisionFilter | pkg/cmd/proxy.go:61-66 | on every schedule, what the filter let through is what RevisionFilter sends for what the stream delivered |
| Proxy.FoldIsRetryFold | pkg/cmd/proxy.go:68-78 | whenever the fold is idle, its attempts have been those of RetryFold on what it received |
| Supervise.Key.CompareAndUpdate | pkg/etcd/updater.go:11-22 | whatever the key held, it holds the value afterwards and its past is kept; it is written exactly if it held something else, so equal values never follow each other |
| Supervise.Operate | pkg/cmd/supervise.go:95-111 | an operation that reports success leaves the key with the resolved address; one that does not may have done so too |
| Supervise.OperationInSteps | pkg/cmd/supervise.go:95-111 | the steps of a supervisor's operation, taken in a row, leave the key and the result as Operate does, for each way to fail, and a failed operation is left to be tried again |
| Supervise.UpdateSetsValue | pkg/etcd/updater.go:9-22 | afterwards the key has the value, its past is kept, and doing it again changes nothing |
| Supervise.HistoryNeverRepeats | pkg/cmd/supervise.go:88-113 | with any number of supervisors, two consecutive values of the key always differ |
| Supervise.Agreement | pkg/cmd/supervise.go:88-113 | once all active supervisors have finished with one master, etcd has its address if and only if the schedule has no stop of the last writer, while etcd held another address, that no commit follows |
| Supervise.NewerSupersedes | pkg/streams/fold.go:33-43 | a supervisor whose operation has failed can always take a newer id in hand, and goes on with it, or try its own again |
| Supervise.OneAtATime | pkg/cmd/supervise.go:93-113 | a supervisor takes an id only between operations, updates etcd only if the id was resolved, and tries again only after a failure |
| Supervise.AgreementWithoutStops | pkg/cmd/supervise.go:88-113 | so if none stops, etcd has the master's address, however late stale writes landed |
| Supervise.StaleWriteOfStoppedSupervisorStays | pkg/cmd/supervise.go:88-113 | a schedule with one stop after which all agree and etcd keeps the old address |
| Supervise.EachLives | pkg/cmd/supervise.go:88-113 | a supervisor that does not stop goes through its own stages, whatever the others do in between |
| Supervise.FilterIsDedupeFilter | pkg/cmd/supervise.go:88-89 | what its filter let through is what DedupeFilter sends for what it observed |
| Supervise.FoldIsRetryFold | pkg/cmd/supervise.go:93-113 | whenever its fold is idle, its attempts have been those of RetryFold on what it received |
| Propagation.MasterReachesPgBouncer | pkg/cmd/proxy.go:60-87 | from pacemaker to PgBouncer: once the supervisors have finished with one master and a proxy has nothing left to do, PgBouncer runs with that master's address if and only if no supervisor left a stale one for good |
| Migration.ServerMigrate | pkg/failover/server.go:134-166 | which answer is given when, the host that pacemaker is asked for, and that the address returned is the sync node's |
| Migration.NotifyWhenMaster | pkg/failover/failover.go:229-257 | never signals without the target in etcd, signals at most once, and sends on the closed channel if and only if it could signal and the target passes the filter twice |
| Migration.OneRevisionNeverPanics | pkg/failover/failover.go:229-257 | a target at one revision is signalled once, however often it is redelivered |
| Migration.TwoRevisionsPanic | pkg/failover/failover.go:229-257 | the target, another master and the target again are enough |
| Migration.FilteredMatches | pkg/failover/failover.go:244-253 | what the loop sees behind the revision filter, in terms of the stream in front of it |
| Migration.NextIsHit | pkg/failover/failover.go:244-253 | what the stream delivers next can notify exactly if it is the target, at that key, at its newest revision so far |
| Migration.Migrate | pkg/failover/failover.go:181-206 | succeeds if and only if the server migrates, its answer arrives, and etcd shows the address of the sync node before the expiry timer; so only after etcd held that address |
| PauseNode.CommandsAreIdempotent | pkg/pgbouncer/pgbouncer.go:149-185 | a PAUSE or RESUME that gets through succeeds in either state, and no error is taken for success by both |
| PauseNode.OnlyAlreadyPasses | pkg/pgbouncer/pgbouncer.go:149-185 | the only errors that pass are the pooler's two messages for a state already reached, with the pooler's code |
| PauseNode.OpKeepsNodeInv | pkg/failover/server.go:90-132 | every operation of handlers and timers keeps: a paused PgBouncer has a resume coming |
| PauseNode.PausedHasResumeComing | pkg/failover/server.go:106-118 | in every reachable state a paused PgBouncer has its resume scheduled, or an open handler about to schedule it |
| PauseNode.StretchIsBounded | pkg/failover/server.go:90-132 | an unbroken paused stretch ends by the later of the completion and createdAt + expiry of the request that began it, with no client left |
| PauseNode.NoExpiryNoResume | pkg/failover/server.go:109-118 | without an expiry PgBouncer can stay paused for ever |
| PauseNode.ExpiryDecides | pkg/failover/server.go:106-118 | the guarantee holds if and only if the expiry is positive |
| FailoverRuns.InvStep | pkg/failover/failover.go:63-225 | each step of any run keeps every run's order, stack, deadline and result, and the exclusion between runs |
| FailoverRuns.EachClientReports | pkg/failover/failover.go:158-178 | in every reachable state, for every order of the goroutines, EachClient's result is an error exactly if some call has failed, and without one all have succeeded at its end |
| FailoverRuns.MutualExclusion | pkg/failover/failover.go:93-107 | at most one run is between its successful AcquireLock and its ReleaseLock |
| FailoverRuns.RequestsOnlyInWindow | pkg/failover/failover.go:109-225 | every pause, migrate, unmigrate and resume request is issued by the lock's holder between those two |
| FailoverRuns.SuccessIsNotified | pkg/failover/failover.go:198-203 | a run at its cleanup, or finished, has not failed if and only if etcd has shown it the new master |
| FailoverRuns.NoResumeBeforeNotified | pkg/failover/failover.go:198-203 | so a run that has not failed resumes nothing before that |
| FailoverRuns.MigrateThenAwait | pkg/failover/failover.go:198-203 | when the migrate rpc has answered, the run waits for the notification or for all of the pause expiry |
| FailoverRuns.PhaseGetsItsTime | pkg/failover/failover.go:74-225 | on entering a phase, a run lets its calls take all of that phase's timeout, and no more |
| FailoverRuns.RunsAreBounded | pkg/failover/failover.go:74-225 | no run, failing or not, is still at work or at its cleanup once n health checks + 2 lock timeouts + (expiry + 1 s) + 2 pacemaker timeouts + expiry + a resume timeout have passed |
| FailoverRuns.RunsEnd | pkg/failover/failover.go:63-225 | a run takes at most 5n + 8 steps, and has none left exactly if it is over |
| FailoverRuns.NeverStuck | pkg/failover/failover.go:63-225 | a run that is not over has a step of its own to take, whatever the others do |
| FailoverRuns.LeftShrinks | pkg/failover/failover.go:63-225 | each of its steps leaves it fewer, and no other step leaves it more |
| FailoverRuns.HandlerStepShrinks | pkg/failover/server.go:90-124 | an open pause handler has at most two steps left, and each of its steps uses one up |
| FailoverRuns.TimeGoesOn | pkg/failover/failover.go:74-225 | nothing holds the clock but a run, an open handler or a due resume that can move at that moment; a vanished operator never does |
| FailoverRuns.FinishedRunIsPipelineRun | pkg/failover/pipeline.go:8-24 | among any other runs, a finished run made exactly the pipeline's calls for the same failure: the cluster refines the pipeline |
| FailoverRequests.InvStep | pkg/failover/failover.go:109-178 | every step keeps what each client has seen of its request in line with where the request is: travelling, at a handler, answered |
| FailoverHistory.PhaseByHistory | pkg/failover/failover.go:63-225 | on every schedule, the steps that were taken decide in which phase each run is and whether it has failed, and they come in the pipeline's order: all health checks before the lock, the lock before the pause, and so on, the cleanup after a failure included |
| FailoverHistory.LockByHistory | pkg/failover/failover.go:93-107 | a run holds the lock if and only if it took it, be it with the answer lost, has not released it, and no lease has ended since |
| FailoverHistory.LockComesFree | pkg/failover/failover.go:93-107 | the lock's holder is between taking and releasing it, or is over; in the latter case, and only then, the lease can end |
| FailoverHistory.RequestByHistory | pkg/failover/failover.go:109-153 | each pause and resume request is where its own steps have brought it: travelling, lost, at its handler, answered, its resume scheduled or fired |
| FailoverHistory.PausedByHistory | pkg/pgbouncer/pgbouncer.go:149-185 | a PgBouncer is paused if and only if the last command that reached it, from anybody or from a timer, was PAUSE |
| FailoverHistory.RequestSteps | pkg/failover/server.go:90-132 | exactly which steps of a request can come next, given those that came |
| FailoverHistory.RunSteps | pkg/failover/failover.go:63-225 | exactly which calls of a run can return next, and how, given those that did |
| FailoverAbandoned.WhoChangesPgBouncer | pkg/failover/server.go:90-132 | a step changes a PgBouncer if and only if it pauses an unpaused or resumes a paused one, and is then a scheduled resume, a request awaited by the one run in its lock window, or an abandoned request |
| FailoverAbandoned.GivingUpAbandons | pkg/failover/failover.go:117-126 | an abandoned request arises exactly when a client returns from its call, or vanishes, while the request is under way |
| FailoverAbandoned.OnlyTheLockHolderOrExpiry | pkg/failover/server.go:90-132 | so if no client gives up, only the lock holder's requests and scheduled resumes change a PgBouncer |
| FailoverPauses.PausesAlwaysEnd | pkg/failover/server.go:106-118 | in every reachable state, with operators vanishing anywhere and requests abandoned at will, a paused PgBouncer has its resume coming, and the request that paused it is no older than the larger of timeout and expiry |
| FailoverPauses.MigrateAfterEveryPause | pkg/failover/failover.go:109-134 | Migrate is requested only after PAUSE took effect on every node, within the whole-second timeout |
| FailoverPauses.AllPausedAtMigrate | pkg/failover/failover.go:113-124 | on nodes without leftover timers, if the expiry sent exceeds the timeout sent plus skew and delay, all nodes are paused at that moment |
| FailoverAbandoned.ResumedUnlessAbandoned | pkg/failover/failover.go:136-153 | when all resume calls of a cleanup have succeeded, a node is paused if and only if, since this run resumed it, an abandoned pause took effect there and nothing has resumed it |
| FailoverAbandoned.NonePausedAfterResume | pkg/failover/failover.go:136-153 | so if no client gives up, no node is paused then |
| FailoverLimits.LatePauseAfterResume | pkg/failover/failover.go:117-126 | a run in which a pause, given up on, takes effect between the successful resume and its cleanup's next step |
| FailoverLimits.LatePauseAfterUnlock | pkg/failover/failover.go:117-126 | a run in which it takes effect when the run is finished and the lock free |
| FailoverLimits.ShortExpiryLosesPause | pkg/failover/failover.go:113-124 | for any nodes, skew and delay, and every shorter positive expiry, there is a run that requests Migrate with a node already resumed |
| FailoverLimits.ExpiryMustExceedTimeout | pkg/failover/failover.go:113-124 | for any nodes, skew and delay: all nodes are paused at Migrate on every such run if and only if the expiry sent exceeds timeout sent + skew + delay, a single node having no skew, or is not positive |
| FailoverLimits.WholeSecondsDecide | pkg/failover/failover.go:121-122 | for any configured durations below 2^31 s and instant answers, that holds if and only if the whole seconds of the expiry exceed those of the timeout, or the expiry is below one second |
| FailoverLimits.TruncationLosesPause | pkg/failover/failover.go:121-122 | so every expiry of a second or more that is above the timeout, but below its next whole second, can lose the pause |
| FailoverLimits.SubsecondExpiryNeverResumes | pkg/failover/failover.go:121-122 | with an expiry below one second, a vanished operator can leave a node paused for any time, with no resume scheduled or travelling |
| WalLocation.TextOrderIsNumericOrder | docker/postgres-member/resource_agents/pgsql:1154-1171 | on hex text of one length, text order is numeric order |
| WalLocation.PaddedDecodes | docker/postgres-member/resource_agents/pgsql:1157-1167 | padding both halves gives 16 hex digits whose value is the 64-bit position |
| WalLocation.PaddedOrderIsPositionOrder | docker/postgres-member/resource_agents/pgsql:1154-1171 | comparing padded locations as text is comparing positions as numbers |
| WalLocation.MyLocationIsTheLarger | docker/postgres-member/resource_agents/pgsql:1154-1171 | the agent's location is the encoding of the larger of replay and receive position |
| WalLocation.PrePromote | docker/postgres-member/resource_agents/pgsql:862-891 | rejects if and only if the guard holds, the new master's baseline was obtained and the local one is strictly newer, an empty one being oldest |
| StandbyList.SetSyncAppends | docker/postgres-member/resource_agents/pgsql:1233-1243 | the text edit of set_sync_mode appends to the list |
| StandbyList.SetAsyncDeletes | docker/postgres-member/resource_agents/pgsql:1215-1227 | for a name without dots, the text edit of set_async_mode deletes it if and only if no other entry contains it |
| StandbyPatterns.SetAsyncDeletesPattern | docker/postgres-member/resource_agents/pgsql:1215-1227 | for any host name, the edit deletes it if and only if sed, reading it as a pattern, finds nothing but the entry itself |
| StandbyPatterns.DotMatchesComma | docker/postgres-member/resource_agents/pgsql:1221-1222 | an instance in which it finds more: a.b in the list a,b |
| StandbyPatterns.UnmistakableIsExact | docker/postgres-member/resource_agents/pgsql:1215-1252 | the test and the edit of the list are right for every name and list over NODE_LIST if and only if, in each such list, neither grep nor sed takes anything for a name but the name itself |
| StandbyPatterns.PlainNamesAreUnmistakable | docker/postgres-member/resource_agents/pgsql:1215-1252 | that is so if no name has a dot or occurs in another |
| StandbyList.RemovingPg1DamagesPg10 | docker/postgres-member/resource_agents/pgsql:1221-1222 | an instance in which it does not |
| StandbyList.IsSyncModeIsStretch | docker/postgres-member/resource_agents/pgsql:1250-1252 | for any host name, the grep finds it exactly if some entries in a row, joined by their commas, match it as a pattern |
| StandbyList.IsSyncModeIsMembership | docker/postgres-member/resource_agents/pgsql:1250-1252 | so it finds every entry and, for a name without dots, nothing else |
| SlaveControl.Agent.constructor | docker/postgres-member/resource_agents/pgsql:1204-1213 | the agent starts with the empty list |
| SlaveControl.Agent.LookUp | docker/postgres-member/resource_agents/pgsql:972-984 | the status of the first row that names the node, or DISCONNECT |
| SlaveControl.Agent.EnterSyncMode | docker/postgres-member/resource_agents/pgsql:996-998 | textual membership test and edit insert into the list, which stays free of duplicates |
| SlaveControl.Agent.LeaveSyncMode | docker/postgres-member/resource_agents/pgsql:1025-1028 | textual membership test and edit delete from the list |
| SlaveControl.Agent.Record | docker/postgres-member/resource_agents/pgsql:986-1031 | what one node's status does to list, data status and score |
| SlaveControl.Agent.ControlSlaveStatus | docker/postgres-member/resource_agents/pgsql:944-1034 | a pass has the specified effect on list, data statuses and scores, and none if psql fails |
| SlaveControl.PassMembership | docker/postgres-member/resource_agents/pgsql:986-1031 | after a pass the list has no duplicates and no strangers, has every asynchronously streaming node, has no node that is disconnected or not streaming, and keeps its opinion of SYNC and POTENTIAL ones |
| SlaveControl.WrittenAt | docker/postgres-member/resource_agents/pgsql:967-1032 | after a pass each node other than the primary has its own value, and no other entry changed |
| SlaveControl.PassPromotes | docker/postgres-member/resource_agents/pgsql:986-1031 | after a pass the promotable nodes are exactly the synchronous streamers and, in async mode with at most two nodes, the asynchronous one |
| SlaveControl.PassPromotesSyncOnly | docker/postgres-member/resource_agents/pgsql:1000-1005 | so with three nodes or more, or in sync mode, they are exactly the synchronous streamers |
| SlaveControl.StatusIsNeverLatest | docker/postgres-member/resource_agents/pgsql:972-984 | no row can make slave control write LATEST |
| MasterRight.Agent.HaveMasterRight | docker/postgres-member/resource_agents/pgsql:1036-1125 | gate, error and verdict, and the note files, data status and promotion score afterwards |
| MasterRight.GateAdmits | docker/postgres-member/resource_agents/pgsql:1050-1065 | which statuses pass the gate in each mode |
| MasterRight.UnfitIsFinal | docker/postgres-member/resource_agents/pgsql:1050-1065 | in either mode, once a call ends as unfit, every later one is out of date until somebody else writes the status |
| MasterRight.LinesOf | docker/postgres-member/resource_agents/pgsql:1085-1098 | the lines noted are exactly the locations that can be read |
| MasterRight.NotesAreACount | docker/postgres-member/resource_agents/pgsql:1074-1122 | after any sequence of calls the files are a run 0..k with equal contents, equal to each of the last k + 1 observations |
| MasterRight.RightNeedsAgreement | docker/postgres-member/resource_agents/pgsql:1100-1116 | with a check count of two or more, the right takes check count + 1 equal observations in a row, with the own location among them and none beyond it |
| MasterRight.AgreementGivesRight | docker/postgres-member/resource_agents/pgsql:1100-1116 | whatever calls came before, among the next check count + 1 equal observations that show the own location as the newest, one gives the right |
| MasterRight.BlindRightOnFirstCall | docker/postgres-member/resource_agents/pgsql:1074-1116 | a first call that reads nothing gives the right if and only if the check count is below two |
| MasterRight.NewestIsNewest | docker/postgres-member/resource_agents/pgsql:1110-1111 | sorting the note's text finds a location in it that no other exceeds as a number |
| DataStatus.LatestElsewhere | docker/postgres-member/resource_agents/pgsql:546-594 | in any run with one running primary at a time, a node other than the one promoted last ends as LATEST if and only if it wrote LATEST late, once another was promoted or a promotion under way had disconnected it, and nothing overwrote that |
| DataStatus.TwoLatestNeedLateWrite | docker/postgres-member/resource_agents/pgsql:799-808 | so two nodes end as LATEST if and only if one of them owes it to such a write |
| DataStatus.AtMostOneLatest | docker/postgres-member/resource_agents/pgsql:546-594 | if LATEST is written neither by a node promoted before another nor once a promotion under way has disconnected it, or if promotions are ordered, at most one node is LATEST at every moment of every run |
| DataStatus.RuleDecidesOneLatest | docker/postgres-member/resource_agents/pgsql:546-594 | in any cluster of two nodes or more, that holds if and only if both guards are kept, or promotions are ordered; guards of slave control do not matter |
| DataStatus.UnsoundGateNeedsLateWrite | docker/postgres-member/resource_agents/pgsql:1050-1065 | in either mode, in any run with one running primary at a time, a node that passes the gate, neither promoted last nor recorded by the node that was as streaming in a way that the mode trusts, owes that to a late write of LATEST or of slave control |
| DataStatus.GateAdmitsOnlyStreamers | docker/postgres-member/resource_agents/pgsql:1050-1065 | in either mode, if slave control keeps the same two guards, or promotions are ordered, any other node that passes the gate was last written by the node promoted last, in its present term, as streaming synchronously or, in async mode, asynchronously |
| DataStatus.RecordedPasses | docker/postgres-member/resource_agents/pgsql:1050-1065 | conversely, whom slave control writes as such a streamer does pass, and nobody else whom it writes |
| DataStatus.RuleDecidesGate | docker/postgres-member/resource_agents/pgsql:1050-1065 | in either mode, in any cluster of three nodes or more, that holds if and only if all four guards are kept, or promotions are ordered |
| DataStatus.DeadScriptMakesTwoLatest | docker/postgres-member/resource_agents/pgsql:577-590 | for any two nodes, a run in which Postgres of the first dies under its promotion, the second is promoted, and the first one's script goes on to write LATEST |
| DataStatus.OverlappingPromotionMakesTwoLatest | docker/postgres-member/resource_agents/pgsql:557-561 | for any two nodes, a run in which the second one's promotion disconnects the first before the first writes LATEST |
| DataStatus.DeadControlPassesGate | docker/postgres-member/resource_agents/pgsql:953-988 | for any three, a run in which slave control goes on after its Postgres has died, and a node passes the gate on its word |
| DataStatus.LateControlPassesGate | docker/postgres-member/resource_agents/pgsql:986-991 | for any three, a run in which slave control overwrites what a promotion under way has written |
| DataStatusReigns.AnyNodeCanReign | docker/postgres-member/resource_agents/pgsql:546-594 | under every rule, whenever nobody leads, any node can be promoted, which makes it LATEST and disconnects all others; its slave control can then record each of them as Postgres reports it; and when its Postgres stops, nobody leads again |
| DataStatusReigns.OneAtATime | docker/postgres-member/resource_agents/pgsql:546-594 | on every schedule, each agent does one operation at a time: it promotes Postgres once it has disconnected every node, writes LATEST once for having seen Postgres as primary, and slave control goes through the nodes once |

## Left out

- FailoverRuns.MutualExclusion: assumes that the lock's lease does not end before the process that holds the lock,
  because the code never checks for its loss.
- FailoverRuns.EachClientReports: treats each goroutine's write to the shared result as atomic; Go's memory model is
  not modelled.
- FailoverRuns.RunsAreBounded: assumes that a call returns by its context's deadline. The cleanup context, which the
  CLI cancels ten seconds after its start, is covered as calls that fail at any time before their deadlines.
- FailoverPauses.AllPausedAtMigrate: assumes clean nodes at the start of the pause, because an earlier request's
  resume is never cancelled and may lift a later pause. Resumes by people or tools that bypass the failover are not
  modelled.
- PauseNode.StretchIsBounded: assumes that the scheduled resume is punctual and succeeds, and that a PAUSE that reports
  an error had no effect.
- Supervise.Agreement: assumes that a transaction which has not committed when its operation returns, or its process
  stops, never commits, and that resolving an id gives one address throughout.
- EtcdStream.WatchEndLeadsToClosure: bounds the steps by how often the poll timer wins against the finished context;
  that it does so only finitely often is what EtcdStream.OnlyUnfairStreamsGoOn derives from a fair select.
- Proxy.NeverRollsBack: speaks of one key and one life of the proxy process; a restarted proxy starts from nothing.
- StandbyPatterns.SetAsyncDeletesPattern: takes host names of letters, digits, dots, `_` and `-` that begin with none of
  the dot and `-`; other characters that the shell, sed or grep treat specially cannot stand in a host name.
- SlaveControl.Agent.ControlSlaveStatus: takes names for which StandbyPatterns.Unmistakable holds, without which the
  edits go wrong in some list; has all nodes of NODE_LIST online, so that attribute writes succeed; the pgsql-status
  attribute, shown to people only, and the reload of Postgres are omitted.
- MasterRight.Agent.HaveMasterRight: keeps a note file as a sequence of lines rather than its bytes.
- WalLocation.PrePromote: has text sorted in byte order (the C locale), and attributes that hold what
  show_master_baseline wrote.
- Migration.NotifyWhenMaster: takes a finite stream; a goroutine left blocked in a send is a final state.
- At least one client is configured in Failover, and all operators use the same timeouts, although each could be
  called with its own.
- Pause's two error codes, Unknown and DeadlineExceeded, are one failure.
- gRPC, etcd, pgx, docker and Postgres itself: calls into them succeed or fail as the environment likes.
- XML and XPath evaluation, HTML templates and regular expressions over config files.
- ShowDatabases, Disable and Config of PgBouncer, which the protocol does not use.
- Flags, configuration files, logging, metrics and signal handling.
- Starting, stopping and validating Postgres in the resource agent.
- Deletion of the master key in etcd.
