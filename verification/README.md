# Control plane: a verified model

This project models the Go control plane of a small deployment platform in Dafny and proves what
its protocols and data structures keep. The model has the branches, constants and error paths of
the source. State that the source updates in place is a class whose methods are proved against
functions on values; the theorems are lemmas about those functions. `dafny verify dfyconfig.toml`
checks everything.

## What is modelled

**Deployment lifecycle** (`DeploymentStore`, `Lifecycle`, `LifecycleRuns`, `ControlLoops`, `JobWait`).
Each SQL statement is one atomic step on the tables, and every write may be done, lost, or done
with an error reported to its caller. `Lifecycle.System` interleaves the statements of build
workers (claim, build, deploy, ready or fail), the build reconciler, webhook handlers, redeploys,
promotes, project administration, crashes and boots. The cluster is an oracle. The inductive
invariant is `Lifecycle.Inv`; its heart is that a worker that has not finished never holds a
terminal row. `ControlLoops` has the worker's and the reconciler's ticks as code over
`DeploymentStore.Store`, with everybody else running between any two calls, and proves that the
whole is a run of the state machine in which the loop itself takes exactly the specified steps.
`DuplicatePushes`, `ClaimQueue`, `ProductionAlias` and `SecondWorker` prove what runs can and cannot
do, with counter-runs from an empty database.

**Cutover and garbage collection** (`Cutover`). The tail of `runOne` on the objects of a tenant
namespace: Services, Deployments and routes are maps that are updated call by call, each call with
its own fate. A ghost trace holds every intermediate state.

**Time series** (`Histogram`, `TrafficDelta`, `ProjectSeries`, `ServiceSeries`, `ServiceMerge`).
Ring buffers over ghost histories, counter deltas with resets, weighted downsampling,
interpolated quantiles, and the merge of several services' histories.

**Text** (`TraefikMetrics`, `Base64`, `Slug`). The metrics parser, the hand-written base64
decoder and the slug function, each against an independent definition of its result.

**Merging, migrating, limiting** (`Activity`, `Migrations`, `RateLimiter`). `Sorting` states what
a library sort promises: a sorted permutation, nothing about equal elements. `Common` holds the
shared vocabulary.

## What the proofs found

- Terminal statuses absorb only because there is one replica (`MarkDeploying` and `MarkReady` have
  no status guard): `FailedRowIsRevived` gives the run for two workers, from an empty database.
- The duplicate check and the INSERT of a push are two statements. A checked push is the first
  build of its commit exactly when no row of that commit is inserted in between
  (`CheckedPushIsFirstIff`), so always when handlers run one at a time (`PushRowIsFirstBuild`);
  `TwoPushesRace` gives the run in which both of two pushes build.
- The claim picks the oldest queued row before it joins its installation. A queued row whose
  installation is gone stops every claim, of every project, from the moment on when all rows that
  are or may come back into the queue are younger, until the installation comes back or the
  project is deleted (`MissingInstallationBlocksTheQueue`). Such a state is reached from an empty
  database: two projects are installed, each is pushed, one installation is deleted
  (`BlockedStateIsReachable`).
- `promote_handlers.go:117-121` promises that `production_deployment_id` never names a commit whose
  Service is not behind the alias. In any run the two agree exactly when the last move of the alias
  and the last write of the column were for the same deployment (`AgreeIffLastWritesMatch`); a build
  or promote that writes the column meets the promise exactly when nobody moved the alias since its
  own alias call, except back (`ColumnWriteAgreesIff`, `PromoteWriteAgreesIff`). So it holds as long
  as the writes are answered and a build and a promote of one project do not overlap between their
  two writes (`AliasAndColumnAgree`); `ColumnNamesAnotherCommit` gives the run in which they do.
- The production alias call may fail without stopping the sweep behind it. `DanglesAfterTail` says
  for every route exactly when it dangles afterwards, and `LostAliasCallDangles` exactly when that
  takes production down. Preview routes of swept commits dangle as well (`PreviewRouteSurvivesIff`).
- `promote_handlers.go:8-15` and `:24` say that older Services persist and previews are unaffected;
  `builder.go:359-370` deletes those Services. The model follows the code: after a successful
  production deploy, a promote resolves exactly when it names the live commit
  (`PromoteAfterDeployResolvesIff`).
- Nothing of another project is ever deleted, and `TailDeletesIff` says exactly what is, whatever
  calls fail.
- Domains whose dots and dashes coincide share one route name. `DomainServedIff` says which of them
  is served, whatever calls are lost, and `DottedHostIsShadowed` names two that collide.
- `project_series.go:343-347` promises that `total` is the count of the infinite bucket, and
  `:391-392` promises the highest finite bound as a fall-back. A tick that first sees a service
  breaks the promise (`CountExceedsInfinity`, `DocumentedIff`), and the fall-back converts +Inf
  instead; `UndefinedIff` and `UndefinedQuantileIff` say exactly when.
- `HistoryAccount` accounts for every request a project's history shows: the counters' gain, plus
  what falls hid, minus what services had counted before the sampler knew them.
- A scrape without class counters hides the requests around it from the per-service history;
  `RetainedDeltasTelescope` accounts for every window.
- The feed of `store_activity.go` always shows the times of the newest items. It shows the newest
  items themselves exactly when it is not cut inside one printed second (`ItemsAreTheNewestIff`).
- `migrate.go:18-21` announces the files above the highest recorded version; the code runs every
  unrecorded file. `CommentHoldsIff` says when the two agree.
- A span of one window can admit twice the limit and no more (`SlidingSpanIsBounded`,
  `TwiceTheLimitIsReached`).

## Assumptions

Numbers that the source keeps as `float64` are integers (counters, nanoseconds) or reals
(histogram bounds and targets). Integers are unbounded. Text is ASCII. Time is an integer clock.
Go's truncating division is written out where operands can be negative. `strconv.ParseFloat` and
`fmt.Sscanf` are parameters. A traversal of a Go map takes its keys in any order.

## Model

| member | source | states |
|---|---|---|
| `DeploymentStore.Store.ClaimNextQueued` | control-plane/store.go:944-989 | claims an oldest queued row and starts its clock; claims nothing when none is queued; errs without a change when the row's installation is gone, and whenever the call is not answered |
| `DeploymentStore.Store.MarkDeploying` | control-plane/store.go:991-1000 | unguarded status write with image and build end; an acknowledged one is in the row, only that row changes, and a lost write changes nothing |
| `DeploymentStore.Store.MarkReady` | control-plane/store.go:1021-1030 | unguarded status write with url and time; only that row changes |
| `DeploymentStore.Store.MarkFailedIfInFlight` | control-plane/store.go:1130-1140 | fails the row only while it is building or deploying, with the reason, and keeps a build end that is there |
| `DeploymentStore.Store.RequeueDeployment` | control-plane/store.go:1063-1077 | requeues one in-flight row and reports whether it did |
| `DeploymentStore.Store.RequeueStale` | control-plane/store.go:1082-1096 | requeues exactly the in-flight rows that started before the cutoff and reports their number |
| `DeploymentStore.Store.RequeueStuck` | control-plane/store.go:1101-1114 | requeues every in-flight row and no other, and reports their number |
| `DeploymentStore.Store.SetProductionDeployment` | control-plane/store.go:1012-1019 | moves one production_deployment_id to an existing row and changes nothing else |
| `DeploymentStore.Store.RecordDelivery` | control-plane/store.go:29-55 | empty ids and payloads that are no JSON are errors; a known id is not inserted again |
| `DeploymentStore.Store.EnqueueDeployment` | control-plane/store.go:191-279 | result and tables for every outcome of its three statements; a push is dropped exactly when its commit is built and its ref is not refs/heads/ plus the project's own production branch; otherwise one queued row with its commit, ref and delivery is inserted, acknowledged or not |
| `DeploymentStore.Store.EnqueueRedeploy` | control-plane/store.go:357-396 | copies project, commit and ref of the source row into a new queued row without delivery id |
| `DeploymentStore.Store.DeleteProject` | control-plane/store.go:1230-1236 | removes the project and exactly its rows |
| `DeploymentStore.DeduplicatesIff` | control-plane/store.go:223-254 | a push is looked up exactly when it is not on the project's own production branch |
| `DeploymentStore.ClaimIsSweptIff` | control-plane/store.go:1082-1096 | a claimed row is swept exactly when its claim, however long it was queued before, is longer ago than the limit |
| `Lifecycle.ClaimKeeps` | control-plane/store.go:944-989 | a claim keeps every row's invariant and all history |
| `Lifecycle.DeployingKeeps` | control-plane/builder.go:213-216 | MarkDeploying keeps all rows, because the held row is not terminal |
| `Lifecycle.ReadyKeeps` | control-plane/builder.go:300-303 | MarkReady keeps all rows; the new ready row has image, url and time |
| `Lifecycle.FailedKeeps` | control-plane/builder.go:116-124 | the guarded failure write never touches a terminal row |
| `Lifecycle.RequeueKeeps` | control-plane/store.go:1082-1114 | requeueing any set of in-flight rows keeps all rows |
| `Lifecycle.RequeueOneKeeps` | control-plane/build_reconciler.go:101-110 | so does the reconciler's requeue, at any moment of an attempt |
| `Lifecycle.DeleteKeeps` | control-plane/store.go:1229-1236 | deleting a project with its rows keeps all other rows |
| `Lifecycle.HolderAdvances` | control-plane/builder.go:209-303 | whatever step the worker takes, what it relies on about the held row stays true |
| `Lifecycle.WorkersKeepOwn` | control-plane/builder.go:90-126 | with one worker, its claim or next step leaves it with a correct view of its row |
| `Lifecycle.ProductionKeeps` | control-plane/store.go:1012-1019 | production_deployment_id keeps naming a ready row of its project, since ready rows never change |
| `Lifecycle.PromotesKeep` | control-plane/promote_handlers.go:81-125 | between its ready check and its write a promote stays about a ready row |
| `Lifecycle.DeliveriesKeepHandler` | control-plane/main.go:387-409 | a handler's step keeps one row per delivery id, recorded before it is used |
| `Lifecycle.StepKeepsInv` | control-plane/builder.go:90-126 | every step of every actor keeps the invariant when there is one worker |
| `LifecycleRuns.RunKeepsInv` | control-plane/main.go:164-186 | so does every run, and rows keep their identity and terminal rows their content through it |
| `LifecycleRuns.ReachableInv` | control-plane/main.go:164-186 | every state that one replica reaches satisfies the invariant |
| `LifecycleRuns.TerminalRowsAreFrozen` | control-plane/store.go:991-1140 | a ready or failed row is the same row, column for column, at any later time it exists |
| `LifecycleRuns.ProductionNamesReadyRow` | control-plane/builder.go:324-332 | production_deployment_id is null or names a ready row of the same project, in every reachable state |
| `LifecycleRuns.ReadyRowsAreComplete` | control-plane/store.go:1021-1030 | every ready row has its image, url and time, and its last attempt has observed a success |
| `LifecycleRuns.ObservedMeansSeen` | control-plane/builder.go:476-478 | what is observed was seen by a poll of the run, and no attempt of the row started after it |
| `LifecycleRuns.ReadyAttemptSawSuccess` | control-plane/builder.go:208-216 | the attempt that made a row ready saw its Job succeed itself, even if the row was requeued before |
| `LifecycleRuns.WebhookRowsAreBranchPushes` | control-plane/main.go:436-443 | every row that a webhook inserted is of a branch push with a commit |
| `LifecycleRuns.OtherPushesStartNothing` | control-plane/main.go:436-443 | deleted branches, tags and the zero commit start nothing |
| `LifecycleRuns.DeliveriesAreUnique` | control-plane/main.go:387-400 | at most one row per delivery id, and that id is recorded |
| `LifecycleRuns.CleanStepKeepsHeld` | control-plane/builder.go:101-124 | a step whose store writes succeed keeps: in-flight rows are held rows |
| `LifecycleRuns.InFlightRowIsTheHeldRow` | control-plane/store.go:944-989 | with one worker and store writes that succeed, every in-flight row is the row the worker holds |
| `LifecycleRuns.CrashAndBootRequeueInFlight` | control-plane/main.go:164-169 | a crash at any point and a boot lose no row and requeue exactly what was in flight |
| `DuplicatePushes.CheckedPushIsFirstIff` | control-plane/store.go:238-278 | a checked push is the first build of its commit exactly when no row of that commit was inserted between its check and its INSERT |
| `DuplicatePushes.CheckPassesIff` | control-plane/store.go:223-254 | a request passes its check exactly when it is no push, or on refs/heads/ plus the production branch, or of a commit never built |
| `DuplicatePushes.ProductionIsNotDropped` | control-plane/store.go:227-233 | a row that the worker would deploy to production is never deduplicated |
| `DuplicatePushes.StepBesideBuildsNothing` | control-plane/store.go:357-396 | no step but a push or a direct deploy builds a commit that was never built; a redeploy copies a row |
| `DuplicatePushes.PushRowIsFirstBuild` | control-plane/store.go:223-254 | with serialized handlers a push on another branch is the first row of its project and commit, then and ever after |
| `DuplicatePushes.InterleavedPushesBuildTwice` | control-plane/store.go:238-278 | two webhook pushes of one new commit that are both checked before either is inserted both build it: each of the two rows carries its push's delivery, ref and trigger |
| `DuplicatePushes.TwoPushesRace` | control-plane/main.go:436-443 | that is reached from an empty database by two pushes on branches other than the production branch; the second row is not the first build |
| `ClaimQueue.ClaimableIff` | control-plane/store.go:956-973 | an idle worker can claim exactly when some oldest queued row has an installation |
| `ClaimQueue.MissingInstallationBlocksTheQueue` | control-plane/store.go:944-989 | behind an oldest row without installation no step of any run is a claim, with any number of workers, until the installation comes back or the project goes |
| `ClaimQueue.BlockedStateIsReachable` | control-plane/store.go:944-989 | such a state, with a claimable row behind it, is reached from an empty database: two projects are installed, each is pushed, and the installation of the first is deleted |
| `SecondWorker.TwoWorkersCanRevertAFailedRow` | control-plane/store.go:991-1000 | with two workers a failed row can go back to deploying, from any state that lets both claim |
| `SecondWorker.FailedRowIsRevived` | control-plane/store.go:991-1000 | and two workers come to that from an empty database |
| `ProductionAlias.OrderlyRunKeepsTracks` | control-plane/builder.go:311-333 | runs without overlap keep: whoever is between its two writes has the alias, and nobody means agreement |
| `ProductionAlias.AliasAndColumnAgree` | control-plane/promote_handlers.go:117-130 | as long as builds and promotes do not overlap, production_deployment_id names the deployment behind the alias whenever nobody is between two writes |
| `ProductionAlias.NewProjectAgrees` | control-plane/promote_handlers.go:117-130 | in particular from the creation of a project on |
| `ProductionAlias.AgreeIffLastWritesMatch` | control-plane/promote_handlers.go:102-130 | in any run at all, overlapping or not, they agree exactly when the last move of the alias and the last write of the column were for the same deployment |
| `ProductionAlias.ColumnWriteAgreesIff` | control-plane/builder.go:324-332 | from a build's alias call through any run to its column write: if the write is committed they agree exactly when the alias was not moved in between or was last moved back to the build's commit; if it is lost, exactly when they agreed before |
| `ProductionAlias.PromoteWriteAgreesIff` | control-plane/promote_handlers.go:117-130 | the same for a promote |
| `ProductionAlias.OverlapDisagrees` | control-plane/promote_handlers.go:102-130 | a build and a promote that overlap leave alias and column on different commits, with nobody between two writes any more |
| `ProductionAlias.ColumnNamesAnotherCommit` | control-plane/promote_handlers.go:117-121 | that is reached from an empty database by one replica, and nobody is between two writes |
| `ControlLoops.ControlPlane.RunOne` | control-plane/builder.go:149-379 | with everybody else between its calls, the attempt takes exactly the steps its calls' results call for, fails exactly when one of them did, and on success the row, if it still exists, is ready |
| `ControlLoops.ControlPlane.WorkerTick` | control-plane/builder.go:90-126 | a tick is one sweep, the claim of an oldest queued row with an installation or a reason why there was none, that row's attempt, and the failure write if it failed; the row ends ready, or not in flight; no row that was ready or failed changes |
| `ControlLoops.ControlPlane.ReconcileTick` | control-plane/build_reconciler.go:54-110 | a pass looks once at every listed in-flight row and requeues exactly the building rows whose Job is missing past the grace period or stuck past the threshold at that time; no row that was ready or failed changes |
| `ControlLoops.StepsOfAttempt` | control-plane/builder.go:209-333 | only a built and applied commit is marked ready, only a served production commit moves the alias, and the column follows only an answered alias call |
| `ControlLoops.TakenBackIff` | control-plane/build_reconciler.go:59-98 | the row of a build is taken back exactly when its Job is missing for more than 90 seconds or stuck for 480 with a running pod |
| `ControlLoops.UrlIsRouted` | control-plane/builder.go:297-309 | the URL in a ready row is the host of a route to a Service that exists, unless the cutover uses that route name |
| `JobWait.DecidedInTime` | control-plane/builder.go:448-491 | the poll loop decides within 382 polls, whatever the API server and the clock do |
| `JobWait.SlowestIsUndecided` | control-plane/builder.go:448-491 | and no smaller number is enough |
| `JobWait.WaitForJob` | control-plane/builder.go:448-491 | returns the verdict of the first deciding poll; success only when the Job reported success |
| `JobWait.VerdictMeans` | control-plane/builder.go:448-491 | what each verdict says about the deciding poll, the polls before it and the clock |
| `JobWait.UndecidedIff` | control-plane/builder.go:448-491 | exactly what keeps the loop waiting |
| `JobWait.Cluster.EnsureBuildJob` | control-plane/builder.go:422-446 | succeeds exactly when the calls it needs succeed; attaches to a live or finished Job, replaces a failed one, creates a missing one, and touches no other |
| `Cutover.NamesAreInjective` | control-plane/builder.go:1003-1008 | project and short commit can be read back from an object name |
| `Cutover.TailDeletesIff` | control-plane/builder.go:359-370 | whatever calls fail, a tail deletes exactly the Services and Deployments labelled with this project and not with this commit that its sweep reaches, and only once a production deploy is applied; objects of other projects stay as they are |
| `Cutover.OwnObjectsAreLabelled` | control-plane/builder.go:273-295 | the commit's own objects exist, carry its project and commit labels and are not swept |
| `Cutover.OtherRoutesStay` | control-plane/builder.go:305-311 | a failed or preview deploy changes no route but its own |
| `Cutover.HostsAreServed` | control-plane/builder.go:311-323 | the production alias serves the project's host from the commit's Service, the preview route serves the commit's host |
| `Cutover.HostsShareRouteIff` | control-plane/domain_handlers.go:314-316 | two hosts share a route exactly when they differ in nothing but dots, dashes and underscores |
| `Cutover.CutoverMoves` | control-plane/builder.go:311-357 | the cutover re-points exactly the traffic routes whose call was not lost |
| `Cutover.DanglesAfterTail` | control-plane/builder.go:311-370 | exactly when a route dangles after the tail, for any pattern of failing calls |
| `Cutover.SuccessfulTail` | control-plane/builder.go:273-370 | when all calls succeed: alias and domains reach this commit's Service, older labelled objects are gone, everything else is untouched |
| `Cutover.LostAliasCallDangles` | control-plane/builder.go:314-368 | after a lost alias call and the sweep a valid alias dangles exactly when its Service is another commit's and outdated |
| `Cutover.PreviewRouteSurvivesIff` | control-plane/builder.go:305-309 | a preview route survives exactly when its Service does |
| `Cutover.DomainServedIff` | control-plane/domain_handlers.go:314-316 | whatever calls are lost, a verified domain is served exactly when its call was the last that took effect on its route, or none took effect and it was served before |
| `Cutover.DottedHostIsShadowed` | control-plane/domain_handlers.go:314-316 | two different hosts that share a route name, of which only the later is served |
| `Cutover.AnsweredDomainsAreMoved` | control-plane/promote_handlers.go:132-150 | every domain in the answer was verified, and its route targets the promoted Service |
| `Cutover.AnsweredIff` | control-plane/promote_handlers.go:132-150 | the answer names a domain exactly when its own call was answered |
| `Cutover.PromoteStopsAtTheAlias` | control-plane/promote_handlers.go:102-115 | a promote without an answer for the alias touches nothing else; with one, the project's host is served by the promoted commit |
| `Cutover.PromoteAfterDeployResolvesIff` | control-plane/promote_handlers.go:102-115 | after a production deploy a promote resolves exactly when it names the live commit |
| `Cutover.Namespace.RunTail` | control-plane/builder.go:273-370 | the calls in order give the stated final state; when all succeed no traffic route that resolved dangles in any intermediate state |
| `Cutover.Namespace.Promote` | control-plane/promote_handlers.go:81-150 | refuses what is not ready or has no tenant, stops at a failed alias, reports exactly the domains whose call succeeded, and only ever re-points routes |
| `Histogram.QuantileBracket` | control-plane/project_series.go:372-390 | the quantile lies between the bounds of the first bucket that reaches the target |
| `Histogram.QuantileInterpolates` | control-plane/project_series.go:376-390 | in a finite bucket the quantile is the time at which the straight line between the bucket's bounds and counts is at q * total, cut to whole milliseconds |
| `Histogram.QuantileAboveIsHighestBound` | control-plane/project_series.go:376-398 | in the infinite bucket, or beyond all of them without one, it is the highest finite bound |
| `Histogram.MedianIsInTheMiddle` | control-plane/project_series.go:385-386 | ten requests below 100 ms have a median of 50 ms |
| `Histogram.QuantileIsMonotone` | control-plane/project_series.go:349-398 | larger quantiles are never smaller, even when counts are not cumulative |
| `Histogram.UndefinedIff` | control-plane/project_series.go:391-398 | exactly which inputs make the code convert infinity |
| `Histogram.MedianOfFourConvertsInfinity` | control-plane/project_series.go:391-398 | a concrete input that does |
| `Histogram.PercentilesAreOrdered` | control-plane/project_series.go:343-351 | under the documented precondition p50 <= p95 <= p99, all defined |
| `Histogram.ListingIsUnique` | control-plane/project_series.go:356-370 | the sorted buckets, hence the quantile, do not depend on map order |
| `Histogram.ListingIsProper` | control-plane/project_series.go:360-370 | distinct labels give strictly ascending, non-negative bounds |
| `Histogram.HistogramQuantileMs` | control-plane/project_series.go:352-398 | the loop computes the quantile of the sorted buckets, zero for an empty window |
| `TrafficDelta.CountExceedsInfinity` | control-plane/project_series.go:236-260 | a window's count exceeds its infinite bucket by exactly the lifetime counts of newly seen services |
| `TrafficDelta.DocumentedIff` | control-plane/project_series.go:277-281 | the quantile's precondition holds exactly when newly seen services have served nothing |
| `TrafficDelta.NewServiceUndefinesTheMedian` | control-plane/project_series.go:236-260 | a concrete tick with two services of one project, one of them new, whose median is the converted infinity |
| `TrafficDelta.SeededWindowIsOrdered` | control-plane/project_series.go:277-281 | a window of services seen before has ordered, defined percentiles |
| `TrafficDelta.UndefinedQuantileIff` | control-plane/project_series.go:236-260 | a cumulative window has no defined quantile exactly when new services outweigh its infinite bucket |
| `TrafficDelta.ClassDeltaIsGain` | control-plane/project_series.go:213-234 | the requests of a class are what the counters of services with a baseline gained, a counter that fell gaining nothing |
| `TrafficDelta.CountDeltaIsGain` | control-plane/project_series.go:236-250 | count and duration gain likewise, and a service without a baseline gains its lifetime |
| `TrafficDelta.BucketDeltaIsGain` | control-plane/project_series.go:252-270 | so do the histogram buckets of services with a baseline |
| `TrafficDelta.ContainsIff` | control-plane/project_series.go:208 | a service belongs to a project exactly when the slug is somewhere in its name |
| `ProjectSeries.LongAccum.Add` | control-plane/project_series.go:113-131 | the accumulator holds exactly the points added, as sums and request-weighted sums |
| `ProjectSeries.LongAccum.Flush` | control-plane/project_series.go:134-153 | emits the aggregate of exactly those points and starts over |
| `ProjectSeries.OneMorePoint` | control-plane/project_series.go:292-298 | one more tick extends the unfinished run or completes one aggregate of 20 |
| `ProjectSeries.AggregateOrdered` | control-plane/project_series.go:145-150 | integer weighted means keep p50 <= p95 <= p99 |
| `ProjectSeries.RingsOrdered` | control-plane/project_series.go:283-298 | so both rings hold only ordered latencies when all ticks are ordered |
| `ProjectSeries.RequestsConserved` | control-plane/project_series.go:288-298 | aggregates plus the unfinished run count every request exactly once |
| `ProjectSeries.AggregateIsMean` | control-plane/project_series.go:134-153 | an aggregate has the time of its last point and in every column the truncated mean, of the points for resources and of the requests for latencies |
| `ProjectSeries.AggregateIsBetween` | control-plane/project_series.go:134-153 | so every column lies between the least and the greatest of its points |
| `ProjectSeries.SeededTickShowsGains` | control-plane/project_series.go:213-260 | a tick of known services whose counters did not fall shows exactly what they gained, and the mean duration of what they gained |
| `ProjectSeries.RepeatedScrapeIsIdle` | control-plane/project_series.go:213-281 | reading the same counters again shows an idle window |
| `ProjectSeries.PercentilesOfWindow` | control-plane/project_series.go:277-281 | the percentiles are the 0.5, 0.95 and 0.99 quantiles of what the buckets gained |
| `ProjectSeries.HistoryAccount` | control-plane/project_series.go:198-298 | over any stretch of a history the requests of a class are the counters' gain from first to last reading, plus falls, minus what services had counted when they appeared, plus what they had when they vanished |
| `ProjectSeries.SteadyHistoryShowsGains` | control-plane/project_series.go:198-298 | so with steady services and counters exactly the gain |
| `ProjectSeries.SeededTickIsOrdered` | control-plane/project_series.go:213-281 | a tick all of whose services were seen before records p50 <= p95 <= p99 |
| `ProjectSeries.SeededHistoryIsServedOrdered` | control-plane/project_series_handler.go:43-74 | when every tick of a history was seeded, every range of it shows ordered percentiles |
| `ProjectSeries.LastReadings.Window` | control-plane/project_series.go:198-281 | the visit of the matching services, in any order, records the window between two readings and forgets vanished services |
| `ProjectSeries.ProjectBuf.Append` | control-plane/project_series.go:283-298 | the rings stay the last 120 points of the history and the last 1008 aggregates of it |
| `ProjectSeries.ProjectBuf.RecordTick` | control-plane/project_series.go:198-298 | a tick appends one point with the deltas, mean and quantiles of its window, keeps both rings and the chain of readings behind the history, and stores the new readings as baseline |
| `ProjectSeries.ProjectBuf.PointsFor` | control-plane/project_series_handler.go:43-74 | each range key returns exactly the right suffix of the history or of its aggregates |
| `ProjectSeries.RangesReachBack` | control-plane/project_series_handler.go:43-74 | the points of each range reach back exactly as long as its name says |
| `ServiceSeries.ServiceBuffer.Record` | control-plane/telemetry_series.go:108-137 | the buffer holds the last 120 deltas of all readings so far |
| `ServiceSeries.RetainedDeltasTelescope` | control-plane/telemetry_series.go:108-137 | over any retained window the recorded requests are the counter's gain plus its falls minus what follows an empty reading; without empty readings they are at least the gain, and equal it exactly when the counter never fell |
| `ServiceSeries.EmptyReadingHidesRequests` | control-plane/telemetry_series.go:112-115 | a concrete window in which an empty reading hides requests |
| `ServiceSeries.DeltasAreNonNegative` | control-plane/telemetry_series.go:118-128 | no recorded delta is negative, whatever is reset |
| `ServiceSeries.SortInt64Asc` | control-plane/telemetry_series.go:190-197 | sorts in place, a permutation of what was there |
| `ServiceMerge.MergedIsUnique` | control-plane/telemetry_series.go:140-188 | a query has one answer, so map order does not matter |
| `ServiceMerge.MergeConserves` | control-plane/telemetry_series.go:161-174 | per class the merged points hold exactly the requests of all matching histories |
| `ServiceMerge.MergeOneMore` | control-plane/telemetry_series.go:163-173 | one more point adds its counts to its own second and nothing else |
| `ServiceMerge.SeriesStore.RecordSnapshot` | control-plane/telemetry_series.go:87-138 | every reporting service gets exactly this reading, every other history is unchanged |
| `ServiceMerge.ScrapeAddsReadings` | control-plane/telemetry_series.go:87-107 | a scrape adds one reading to every service with class counters in it and changes no other |
| `ServiceMerge.SeriesStore.PointsForServices` | control-plane/telemetry_series.go:144-188 | strictly increasing times; each time, class and count is that of all matching buffers together |
| `TraefikMetrics.SplitIsUnique` | control-plane/telemetry.go:414-436 | a label block is cut at the commas outside quotes in one way only |
| `TraefikMetrics.SplitLabels` | control-plane/telemetry.go:416-436 | the loop cuts it that way |
| `TraefikMetrics.ReadLabels` | control-plane/telemetry.go:346-363 | the last label of a name wins, quotes are stripped, labels without = are skipped |
| `TraefikMetrics.RenderedLabelsAreCut` | control-plane/telemetry.go:414-436 | rendered well-formed labels are cut back into themselves |
| `TraefikMetrics.RenderedLineIsRead` | control-plane/telemetry.go:299-412 | a rendered line reads back as its labels and number, with or without a time stamp |
| `TraefikMetrics.FigureIsSum` | control-plane/telemetry.go:375-402 | every figure of a service is the sum of exactly the samples that carry it |
| `TraefikMetrics.ServiceIsKnownIff` | control-plane/telemetry.go:364-374 | a service is listed exactly when some sample names it |
| `TraefikMetrics.ParsingKeepsBalance` | control-plane/telemetry.go:375-384 | after any lines requests are the sum over classes and errors the 4xx and 5xx |
| `TraefikMetrics.ErrorsAreTheErrorClasses` | control-plane/telemetry_series.go:62-79 | the error test of the parser agrees with the classes of the series |
| `TraefikMetrics.ClassIsFirstDigit` | control-plane/telemetry_series.go:62-79 | the class of a three-character code is its first digit from 1 to 5 followed by xx, of any other code "other" |
| `TraefikMetrics.NamesOfDurations` | control-plane/telemetry.go:316-323 | the exporter's counter names, written out |
| `TraefikMetrics.TelemetrySnapshot.ParseTraefikMetrics` | control-plane/telemetry.go:299-396 | the loop accumulates exactly the samples of the lines |
| `Base64.DecodingIsUnique` | tools/setup-gh-app/main.go:307-334 | a text has one decoding or one first invalid character |
| `Base64.Base64Decode` | tools/setup-gh-app/main.go:307-334 | returns it: the whole bytes of the bit string, six bits a character; the 32-bit accumulator never overflows |
| `Base64.RoundTrip` | tools/setup-gh-app/main.go:307-334 | decoding the RFC 4648 section 4 encoding of any bytes gives those bytes and nothing else |
| `Base64.Table1` | tools/setup-gh-app/main.go:307-334 | the alphabet is that of Table 1 of RFC 4648 |
| `Slug.Slugify` | control-plane/store.go:1377-1387 | terminates with the maximal letter and digit runs of the lower-cased input joined by single dashes |
| `Slug.SlugIsIdempotent` | control-plane/store.go:1375-1387 | a slug is its own slug |
| `Slug.FixedPointsAreCleanTexts` | control-plane/store.go:1375-1387 | exactly the clean texts are their own slugs |
| `Slug.WordsOfJoin` | control-plane/store.go:1375-1387 | the words of a slug can be read back from it |
| `Slug.SlugOfParts` | control-plane/store.go:1375-1387 | anything but a letter or digit only separates: the slug of two parts is their slugs with one dash in between |
| `Slug.CaseIsIgnored` | control-plane/store.go:1375-1387 | texts that differ only in case have the same slug |
| `Activity.ListActivityForUser` | control-plane/store_activity.go:18-105 | returns a legal feed for the clamped limit |
| `Activity.FeedIsFull` | control-plane/store_activity.go:18-105 | a feed has as many items as the limit allows, 40 if it is not from 1 to 100, all of them from the tables |
| `Activity.FeedShowsTheNewestTimes` | control-plane/store_activity.go:101-105 | every legal feed shows the times of the newest items of both tables together |
| `Activity.FetchHoldsTheNewest` | control-plane/store_activity.go:23-99 | fetching only the newest of each table loses none of the newest of both |
| `Activity.ItemsAreTheNewestIff` | control-plane/store_activity.go:101-105 | every legal feed shows the newest items exactly when it is not cut inside one printed second |
| `Activity.OlderItemMayBeShown` | control-plane/store_activity.go:101-105 | a concrete feed that shows the older of two items |
| `Migrations.Migrator.RunMigrations` | control-plane/migrate.go:22-91 | one bad file name runs nothing; otherwise a run does nothing or gets through a prefix of the sorted files, committing body and version together; it succeeds when every call is answered |
| `Migrations.ListedIff` | control-plane/migrate.go:41-54 | the migrations are exactly the files whose name ends in .sql |
| `Migrations.MalformedIff` | control-plane/migrate.go:43-50 | and nothing is run exactly when one of those has no number |
| `Migrations.BootKeepsPrefix` | control-plane/migrate.go:57-91 | a boot keeps the database a prefix of the files and takes nothing back; success means all |
| `Migrations.BootsKeepPrefix` | control-plane/migrate.go:57-91 | after any sequence of interrupted boots over one list the committed bodies are a prefix, none twice |
| `Migrations.RunsKeepPrefix` | control-plane/migrate.go:22-91 | the same for runs that read and sort the files themselves: for files with distinct numbers any sequence of interrupted runs leaves a prefix of their one order, and all of them once a run has succeeded |
| `Migrations.SortedIsAscending` | control-plane/migrate.go:55 | with distinct numbers the order of the migrations is strict |
| `Migrations.AscendingIsUnique` | control-plane/migrate.go:55 | and there is only one such order |
| `Migrations.CommentHoldsIff` | control-plane/migrate.go:18-21 | exactly when running what is unrecorded is running what is above the highest version |
| `Migrations.LateFileIsRun` | control-plane/migrate.go:60-69 | a concrete file that the comment excludes and the code runs |
| `RateLimiter.IpRateLimiter.Allow` | control-plane/ratelimit.go:30-54 | refuses exactly when the quota of the window is used up, as long as readings lag by at most one window, and never without that; the sweep drops no live counter |
| `RateLimiter.AdmittedIff` | control-plane/ratelimit.go:34-54 | a call is admitted exactly when fewer than the limit of its key were admitted before it between the ends of its window of the clock |
| `RateLimiter.QuotaComesBack` | control-plane/ratelimit.go:34-54 | a key that has not called for a window length is admitted |
| `RateLimiter.CallKeepsCounts` | control-plane/ratelimit.go:41-53 | collecting and counting keep every live counter exact |
| `RateLimiter.WindowIsBounded` | control-plane/ratelimit.go:48-53 | no window admits more than the limit |
| `RateLimiter.SlidingSpanIsBounded` | control-plane/ratelimit.go:34-54 | any span of one window length admits at most twice the limit, as long as readings lag by at most one window |
| `RateLimiter.TwiceTheLimitIsReached` | control-plane/ratelimit.go:34-54 | and that many can be admitted |

## Left out

- HTTP handlers, JSON, OAuth, cookies, log streaming, dashboards: input and output.
- The Kubernetes, GitHub and DNS clients: their answers are oracles, their updates atomic.
- HMAC, RSA, JWT and random tokens: cryptography of other libraries.
- Manifests, tenant set-up, env and database Secrets, commit statuses: constant data, or calls without effect on the modelled state.
- The columns commit_message, is_preview and pr_number of a deployment row: copied and never tested by the modelled code.
- MarkFailed: no caller in the modelled code; MarkFailedIfInFlight is what the worker uses.
- WorkerTick: checkout tokens, the build secret, tenant set-up and the polls of the Job are one outcome each; how the polls decide is `JobWait`.
- ReconcileTick: the age in the requeue reason is not rendered; in-flight rows are visited in any order.
- The reconciler's step of the state machine may requeue any in-flight row at any time, which covers its age, Job and pod tests.
- The alias is kept per project id: a route that a deleted project left behind under the same slug is not seen.
- Two workers during a rolling update: excluded from the reachable states, shown only as a counter-run.
- int64 overflow, float64 rounding and NaN.
- LastReadings.Window: the four parallel Last maps of the source always have the same keys and are one map here; the sums over pods are parameters.
- RecordTick: one project's buffer; the source's loop over the projects and its map of buffers by slug are not modelled.
- HistogramQuantileMs: a label that is neither a number nor +Inf reads as whatever the label parser parameter says; the source reads it as zero.
- SplitMetricLine: white space beyond ASCII is not trimmed, and lines over one megabyte, which end the scan with an error, do not occur.
- Slugify: letters beyond ASCII, whose lower case may be ASCII, are excluded.
- RunMigrations: reading the embedded files cannot fail; the version number of a file name is an input.
- Allow: the lock makes a call atomic; windows shorter than one second, for which the source divides by zero, are excluded.
- Activity rows carry kind, id and time only; the texts shown beside them are not modelled.
- Orphan-repository reconciliation, uptime, SEO checks, quantity parsing and the self-rebuilder: they would add only easy members.
