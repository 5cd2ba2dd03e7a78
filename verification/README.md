# DuckRun verification model

A Dafny model of DuckRun's four hard parts, with proofs of what they keep and promise:

- **The namespace tree.** Groups hang under groups; every stored row also caches its full path and its
  depth, and the handlers decide subtrees by string prefix. `GroupTree` and `NamespaceSpec` describe the
  namespace by parent links alone; `NamespaceEffects` says request by request what is answered, what is
  stored and what stays; `GroupIndex` says when prefix search is the same as walking parents;
  `GroupStore` is the handlers over the rows, each proved to do what the plain tree says; `GroupRendering`
  is the nested tree view; `Slugs` is the slug normaliser that makes it all sound.
- **The cluster protocol.** `LeaderLease` interleaves the leader scripts with delays, lost replies,
  failures, expiry and stops; `SlotCluster` does the same for the sorted-set slots with drifting clocks;
  `SlotGate` interleaves callers of the local counter and the two-phase gate.
- **The cron loop.** `Scheduler` is one node's table of due times over whole leadership terms;
  `ClusterSchedule` accounts for the terms of one loop and of a cluster; `ClusterCron` runs the lease
  protocol and every node's loop in one machine.
- **Run records and buffers.** `Executor` drives runs, alone and any number at once, step by step;
  `Reporting` and `Ingest` carry snapshots through a lossy queue into the dashboard's table; `RunToDashboard` joins all
  three; `RunStore`, `ConsoleStore` and `ConsoleFlush` are the bounded in-memory stores and the flush loop.

Objects whose methods update fields are classes here; their contracts state the new state as a function of
the old one, and the lemmas speak about those functions. Interleavings are state machines over events; an
event that does not apply changes nothing, so the theorems hold for every list of events.
`dafny verify dfyconfig.toml` checks everything.

## Where the code does less than it says

- "Exactly one instance drives the scheduler at any moment" (README.md:255): a leader that stalls for a
  whole lease keeps its flag beside the new leader's (`StalledLeaderOverlaps`). One leader is guaranteed by
  limiting how long ago leaders' last settled calls began exactly when the limit is at most the lease
  (`OneLeaderIff`); at most one live node is ever *within its lease* (`AtMostOneFreshNode`).
- "You don't want every instance firing every cron tick" (README.md:253): an occurrence can fire twice, for
  every lease, in two ways. A loop goes on with a span too long after the call behind the flag its last turn
  read (`LateTurnFiresTwice`; so even if every flag is fresh when read, `UnnoticedReturnFiresTwice`). Or a
  loop goes on after its node was told to stop: the stop gives the lease away, leaves the flag, and comes
  before the loop's own where services stop in the reverse of the order they were added in
  (DuckRunServiceCollectionExtensions.cs:43-49, RedisBuilderExtensions.cs:61; `StoppedNodeFiresTwice`). None fires twice
  exactly when a loop goes on no longer than a lease after that call, and no leading turn comes after the
  node was told to stop (`OneFiringIff`); both are things a node can check.
- "Never more than 3 in-flight runs across the entire cluster" (README.md:256): true exactly while runs are
  no older than the slot lifetime less the clock spread less one second (`AgeLimitIff`).
- Stopping a node releases the lease but never clears its flag (`StoppedNodeKeepsFlag`). Statements about
  leaders exclude stopped nodes; statements about the cron loop do not, since a loop does not look.
- On .NET Core a run whose arguments cannot be built stays pending with an end time; it ends in a terminal
  state exactly when that does not happen (`EndsTerminalIff`).
- A cap of zero or less means "no limit" to the local counter and "never" to the cluster
  (`ReservableIffPositive`).
- Updating a run after its eviction puts it back into the lookup for good; such strays are exactly the runs
  so updated (`StrayIffUpdatedAfterEviction`).
- A clean stop flushes at most one batch: nothing accepted is lost exactly when what is queued fits one
  batch, that batch is saved, and every batch before was (`FinalFlush`, `CleanStopLosesTail`).

## Model

| member | source | states |
|---|---|---|
| Slugs.NormalizeSlug | Control Dashboard - Backend/WebApi/GroupEndpoints.cs:368-389 | The scanning loop equals the reference: trim, lower-case, keep letters, digits and separators, split into words at separators, join the non-empty words with one hyphen. |
| Slugs.SlugFromLetters | Control Dashboard - Backend/WebApi/GroupEndpoints.cs:372-388 | For every input: the slug has, in order, the letters and digits of the input trimmed of blanks and lower-cased; between two that follow each other stands one hyphen exactly if a hyphen, underscore, blank, dot or slash stood between them; and it has nothing else. |
| Slugs.TrimIs | Control Dashboard - Backend/WebApi/GroupEndpoints.cs:372 | Trimming leaves the part from the first to the last character that is not to be dropped. |
| Slugs.SlugIsCanonical | Control Dashboard - Backend/WebApi/GroupEndpoints.cs:368-389 | For every input the slug has only lower-cased letters, digits and single inner hyphens, hence no slash. |
| Slugs.CanonicalIffFixed | Control Dashboard - Backend/WebApi/GroupEndpoints.cs:368-389 | The fixed points of the normaliser are exactly the canonical strings; normalising twice is normalising once. |
| GroupTree.NoParentCycle | Control Dashboard - Backend/WebApi/GroupEndpoints.cs:154-162 | A walk along parent links of any length never returns to where it began. |
| GroupTree.LineageIsParentChain | Control Dashboard - Backend/WebApi/GroupEndpoints.cs:154-162 | A lineage starts at a top-level group, ends at the group, and goes from parent to child. |
| GroupTree.PathIsJoinedSlugs | Control Dashboard - Backend/WebApi/GroupEndpoints.cs:109 | The path is the slugs of the lineage, root first, joined with slashes. |
| GroupTree.RelocateIsGrounded | Control Dashboard - Backend/WebApi/GroupEndpoints.cs:245 | Re-hanging a group outside its own subtree keeps the parent relation free of cycles and dangling parents. |
| GroupTree.RelocateInside | Control Dashboard - Backend/WebApi/GroupEndpoints.cs:361-365 | Inside a moved subtree every path keeps its tail after the root's path and every depth its distance to the root. |
| NamespaceSpec.Run | Control Dashboard - Backend/WebApi/GroupEndpoints.cs:80-260 | Every namespace reachable by any list of requests is sound: no cycle, no dangling parent, canonical slugs, distinct among siblings, depth at most the limit, projects in existing groups. |
| NamespaceSpec.ApplyIsSound | Control Dashboard - Backend/WebApi/GroupEndpoints.cs:80-260 | Each single request keeps soundness. |
| NamespaceSpec.RejectedChangesNothing | Control Dashboard - Backend/WebApi/GroupEndpoints.cs:250-258 | A request that is not accepted leaves the namespace as it was. |
| NamespaceEffects.CreateGroupVerdict | Control Dashboard - Backend/WebApi/GroupEndpoints.cs:82-100 | Which answer a creation gets: each rejection, and acceptance, exactly when; the depth limit is ten. |
| NamespaceEffects.CreateGroupEffect | Control Dashboard - Backend/WebApi/GroupEndpoints.cs:102-125 | An accepted creation stores name, slug and parent as given under a new identifier, and changes no other group and no project. |
| NamespaceEffects.CreatedDescription | Control Dashboard - Backend/WebApi/GroupEndpoints.cs:107 | The description stored is the given one trimmed, or none if nothing but blanks was given. |
| NamespaceEffects.SlugSourceIs | Control Dashboard - Backend/WebApi/GroupEndpoints.cs:84 | The slug is made from the given one, or from the name if none or only blanks are given. |
| NamespaceEffects.UpdateGroupEffect | Control Dashboard - Backend/WebApi/GroupEndpoints.cs:180-210 | Which answer an update gets, and that an accepted one changes name and slug where given, never the parent, and no other group or project. |
| NamespaceEffects.UpdatedDescription | Control Dashboard - Backend/WebApi/GroupEndpoints.cs:193 | A description given replaces the old one, trimmed, or clears it if only blanks; none given keeps it. |
| NamespaceEffects.MoveGroupEffect | Control Dashboard - Backend/WebApi/GroupEndpoints.cs:233-258 | The early rejections of a move, exactly when; and that an accepted one changes one group's parent and nothing else. |
| NamespaceEffects.MoveGroupVerdict | Control Dashboard - Backend/WebApi/GroupEndpoints.cs:250-255 | For a destination that exists outside the subtree: too deep exactly if some group below would end up more than ten down, else a conflict exactly if a sibling has the slug, else accepted. |
| NamespaceEffects.DeleteGroupEffect | Control Dashboard - Backend/WebApi/GroupEndpoints.cs:216-226 | A deletion is accepted exactly if the group is stored and no group or project hangs under it; then that group is gone and every other group and project is as it was. |
| NamespaceEffects.CreateProjectVerdict | Control Dashboard - Backend/WebApi/ProjectEndpoints.cs:50-66 | Which answer the creation of a project gets, exactly when. |
| NamespaceEffects.CreateProjectEffect | Control Dashboard - Backend/WebApi/ProjectEndpoints.cs:68-88 | An accepted one stores name, slug and group as given and changes no other project and no group. |
| NamespaceEffects.UpdateProjectEffect | Control Dashboard - Backend/WebApi/ProjectEndpoints.cs:117-139 | Which answer an update of a project gets, and that it changes name and slug where given and nothing else. |
| NamespaceEffects.MoveProjectEffect | Control Dashboard - Backend/WebApi/ProjectEndpoints.cs:145-159 | Which answer a move of a project gets, and that it changes the group of one project and nothing else. |
| GroupIndex.IndexIsUnique | Control Dashboard - Backend/WebApi/GroupEndpoints.cs:344-366 | A tree has exactly one correct table of cached paths and depths, and the table gives the tree back. |
| GroupIndex.PathsAreUnique | Control Dashboard - Backend/Database/DashboardDbContext.cs:45-46 | Two groups with the same full path are the same group, because sibling slugs differ and contain no slash. |
| GroupIndex.PrefixIffDescendant | Control Dashboard - Backend/WebApi/GroupEndpoints.cs:335-342 | The prefix test holds exactly for strict descendants; with path equality, exactly for the subtree. |
| GroupIndex.EveryReachableIndex | Control Dashboard - Backend/WebApi/GroupEndpoints.cs:80-260 | In every reachable namespace cached columns are the joined lineage and its length, paths are unique, depths are bounded, and prefix search is descent. |
| GroupIndex.MoveBackRestores | Control Dashboard - Backend/WebApi/GroupEndpoints.cs:229-260 | After any accepted move, moving back is accepted and restores the namespace exactly. |
| GroupIndex.DeepestDecidesDepth | Control Dashboard - Backend/WebApi/GroupEndpoints.cs:250-252 | The arithmetic on the deepest cached depth rejects exactly when some group of the moved subtree would end up too deep. |
| GroupStore.Store.CreateGroup | Control Dashboard - Backend/WebApi/GroupEndpoints.cs:80-126 | Outcome and new state are those of the plain tree; cached columns stay correct. |
| GroupStore.Store.UpdateGroup | Control Dashboard - Backend/WebApi/GroupEndpoints.cs:180-210 | Likewise for renaming, describing and re-slugging, the last through the path rewrite. |
| GroupStore.Store.DeleteGroup | Control Dashboard - Backend/WebApi/GroupEndpoints.cs:212-227 | Outcome and new state are those of the plain tree; accepted exactly if the group is stored and nothing hangs under it, and then it is gone and everything else is as before. |
| GroupStore.Store.MoveGroup | Control Dashboard - Backend/WebApi/GroupEndpoints.cs:229-260 | Likewise; every rejection is decided on the cached columns and equals the decision by parent links. |
| GroupStore.Store.CreateProject | Control Dashboard - Backend/WebApi/ProjectEndpoints.cs:48-89 | Outcome and new state are those of the specification; groups untouched. |
| GroupStore.Store.UpdateProject | Control Dashboard - Backend/WebApi/ProjectEndpoints.cs:114-140 | Likewise for renaming and re-slugging a project. |
| GroupStore.Store.MoveProject | Control Dashboard - Backend/WebApi/ProjectEndpoints.cs:142-160 | Likewise for moving a project to an existing group or to the top. |
| GroupStore.Store.Ancestors | Control Dashboard - Backend/WebApi/GroupEndpoints.cs:154-162 | The breadcrumb walk ends after exactly depth steps and yields the strict ancestors root first, their paths the proper prefixes. |
| GroupStore.CheckMove | Control Dashboard - Backend/WebApi/GroupEndpoints.cs:233-255 | The move checks, made on cached paths and depths, give the outcome of the plain tree. |
| GroupStore.Deepest | Control Dashboard - Backend/WebApi/GroupEndpoints.cs:250 | The maximum over the prefix selection is the greatest true depth in the subtree. |
| GroupStore.RewritePaths | Control Dashboard - Backend/WebApi/GroupEndpoints.cs:344-366 | Patching prefixes row by row equals re-hanging the group and recomputing every column; nothing outside the subtree changes. |
| GroupStore.PatchedRowsAreIndexed | Control Dashboard - Backend/WebApi/GroupEndpoints.cs:356-365 | Rows patched by prefix and depth shift are the index recomputed from the relocated tree. |
| GroupRendering.EveryGroupDrawnOnce | Control Dashboard - Backend/WebApi/GroupEndpoints.cs:61-75 | The recursive tree view terminates and draws every stored group exactly once, and nothing that is not stored. |
| GroupRendering.ForestHoldsChildren | Control Dashboard - Backend/WebApi/GroupEndpoints.cs:61-75 | At the top stand the groups listed under the all-zero key, and every node all the way down holds the groups listed under its own, in listing order. |
| GroupRendering.KidsAreChildren | Control Dashboard - Backend/WebApi/GroupEndpoints.cs:61 | The groups listed under a group's key are exactly its children, once each; under the all-zero key, exactly the roots. |
| GroupRendering.KidsKeepOrder | Control Dashboard - Backend/WebApi/GroupEndpoints.cs:61 | The children of a node stand in the order of the listing. |
| LeaderLease.Redis.AcquireOrRefreshLeader | NuGet - DuckRun.Redis/Cluster/RedisLuaScripts.cs:10-20 | Command by command the script is the transition `Acquire`. |
| LeaderLease.Redis.ReleaseLeader | NuGet - DuckRun.Redis/Cluster/RedisLuaScripts.cs:42-46 | The script deletes the key exactly when the caller holds it. |
| LeaderLease.Coordinator.MaintenanceRound | NuGet - DuckRun.Redis/Cluster/RedisClusterCoordinator.cs:163-200 | What each outcome of the remote call does to the key, the flag and the loop. |
| LeaderLease.Coordinator.Stop | NuGet - DuckRun.Redis/Cluster/RedisClusterCoordinator.cs:52-83 | Stopping releases at most once and only a lease it believes in, and leaves the flag. |
| LeaderLease.RoundIsItsSteps | NuGet - DuckRun.Redis/Cluster/RedisClusterCoordinator.cs:163-200 | The protocol steps of one undisturbed round add up to the method. |
| LeaderLease.RunKeepsLease | NuGet - DuckRun.Redis/Cluster/RedisClusterCoordinator.cs:163-200 | Every interleaving keeps: a live node within its lease owns the key, and every flag stems from a grant no older than its call. |
| LeaderLease.FreshIffHolder | NuGet - DuckRun.Redis/Cluster/RedisLuaScripts.cs:10-20 | In every interleaving the live holder of the key is exactly the live node within its lease. |
| LeaderLease.AtMostOneFreshNode | NuGet - DuckRun.Redis/Cluster/RedisClusterCoordinator.cs:163-200 | No two live nodes are within their leases at once. |
| LeaderLease.TimelyMeansOneLeader | NuGet - DuckRun.Redis/Cluster/RedisClusterCoordinator.cs:169-177 | When all leaders are within their leases, one flag at most is set. |
| LeaderLease.PromptMeansOneLeader | NuGet - DuckRun.Redis/Cluster/RedisClusterCoordinator.cs:163-200 | A leader whose last settled call began within a lease is fresh, so two such leaders are the same node. |
| LeaderLease.UsurpedIffLeaseOver | README.md:255 | A silent leader can find a rightful leader beside it after a given time exactly when the lease of its last grant ends within that time, whatever the others do. |
| LeaderLease.TakeoverAfterLease | README.md:255 | Once the owner runs no more scripts and the rest of its lease has passed, it holds the key no longer, and the next script of any other node leaves some other node holding it; that script is granted exactly if no third node got there first. |
| LeaderLease.TakeoverWithin | README.md:255 | If some other node's script runs at least every r, then within the rest of a dead leader's lease and r more another node holds the key. |
| LeaderLease.StalledLeaderOverlaps | README.md:255 | A run in which two live nodes both report leadership, for every lease. |
| LeaderLease.OneLeaderIff | README.md:255 | For every lease: limiting the age of leaders' last settled calls guarantees one leader at most exactly when the limit is at most the lease. |
| LeaderLease.StoppedNodeKeepsFlag | NuGet - DuckRun.Redis/Cluster/RedisClusterCoordinator.cs:72-82 | A run in which a stopped node still has its flag beside a fresh leader. |
| SlotCluster.SlotKey.AcquireSlot | NuGet - DuckRun.Redis/Cluster/RedisLuaScripts.cs:28-36 | Command by command the script is the transition `Reserve`; the set never outgrows the cap. |
| SlotCluster.ReserveEffect | NuGet - DuckRun.Redis/Cluster/RedisLuaScripts.cs:28-36 | Member by member: the expired go, the others stay with their scores, and the new one comes in exactly if fewer than the cap stay. |
| SlotCluster.TryAcquireSlot | NuGet - DuckRun.Redis/Cluster/RedisClusterCoordinator.cs:102-114 | The node sends its clock in whole seconds and the lifetime truncated to whole seconds, at least one; a granted slot expires that much after the clock, its key a minute after that. |
| SlotCluster.RunKeepsSlots | NuGet - DuckRun.Redis/Cluster/RedisLuaScripts.cs:28-36 | Every interleaving, with clocks anywhere in their spread, keeps the set within the cap and every young run's member in it. |
| SlotCluster.YoungRunsWithinCap | NuGet - DuckRun.Redis/Cluster/RedisLuaScripts.cs:28-36 | The set and the runs still within the safe age never exceed the cap. |
| SlotCluster.ShortRunsNeverExceedCap | README.md:256 | With every run within the safe age, runs in flight across the cluster never exceed the cap. |
| SlotCluster.AgeLimitIff | README.md:256 | An age limit guarantees the cap exactly when it is at most lifetime less clock spread less one second. |
| SlotCluster.AgeLimitInMillis | NuGet - DuckRun.Redis/Cluster/RedisClusterCoordinator.cs:108-111 | The same bound from the lifetime in milliseconds that callers pass. |
| SlotCluster.KeyTimeoutIsLate | NuGet - DuckRun.Redis/Cluster/RedisLuaScripts.cs:33 | The key's own timeout never drops a member younger than lifetime plus a minute. |
| SlotGate.ConcurrencyTracker.TryAcquire | NuGet - DuckRun.Core/Runs/ConcurrencyTracker.cs:11-19 | Undisturbed, the compare-and-swap loop adds one exactly when there is room. |
| SlotGate.ConcurrencyTracker.constructor | NuGet - DuckRun.Core/Runs/ConcurrencyTracker.cs:5-6 | A new tracker is empty; its maximum is the cap, or the largest 32-bit integer for a cap below one. |
| SlotGate.RemoteSlot.Dispose | NuGet - DuckRun.Redis/Cluster/RedisSlot.cs:10-21 | The member is removed at most once, and a failed removal changes nothing. |
| SlotGate.JobSlot.Dispose | NuGet - DuckRun.Core/Runs/JobSlot.cs:11-22 | Both halves are released on the first disposal only: the local count drops by one even if the remote call fails, and the member goes exactly if the call is served and was not made before. |
| SlotGate.JobSlotGate.TryAcquire | NuGet - DuckRun.Core/Runs/JobSlotGate.cs:12-38 | Local first, then the cluster's set, asked only after the local half and only for a finite cap; what becomes of the set, the count and the slot when the call is granted, refused, or throws before or after the script ran. |
| SlotGate.ReservableIffPositive | NuGet - DuckRun.Core/Jobs/JobScanner.cs:36 | A cluster reservation is possible at all exactly when the cap is at least one, as the scanner ensures. |
| SlotGate.CountIsOccupancy | NuGet - DuckRun.Core/Runs/ConcurrencyTracker.cs:11-21 | In every interleaving the counter is the number of slots held or in transit and stays within the cap. |
| SlotGate.CapIsKept | NuGet - DuckRun.Core/Runs/ConcurrencyTracker.cs:6-21 | For a job with a cap: in every interleaving no more callers hold or await a slot than the cap says. |
| SlotGate.RoomIsGiven | NuGet - DuckRun.Core/Runs/ConcurrencyTracker.cs:15-17 | A caller who looks is turned away exactly when as many as the cap hold or await a slot; otherwise a swap and a grant give it one. |
| SlotGate.AnswerMeans | NuGet - DuckRun.Core/Runs/JobSlotGate.cs:18-37 | What a counted caller is told for each reply of the cluster, and that the count goes back unless it holds a slot. |
| SlotGate.ReleasedExactlyOnce | NuGet - DuckRun.Core/Runs/JobSlot.cs:11-22 | A finished caller gave back exactly what it took, and a quiet gate is back at zero. |
| SlotGate.AloneIsTryAcquire | NuGet - DuckRun.Core/Runs/JobSlotGate.cs:12-38 | One caller's steps add up to the method. |
| Scheduler.TickKeepsStep | NuGet - DuckRun.Core/Scheduler/DuckRunSchedulerService.cs:64-87 | A tick keeps: the next time is the first occurrence after the last attempt, and every occurrence up to the tick is reached. |
| Scheduler.AttemptsAdvance | NuGet - DuckRun.Core/Scheduler/DuckRunSchedulerService.cs:64-87 | Within a term each attempt is due after the one before was handled. |
| Scheduler.ExactlyOneAttempt | NuGet - DuckRun.Core/Scheduler/DuckRunSchedulerService.cs:64-87 | Each occurrence after a term's start and up to its last tick is reached by exactly one attempt, run or dropped. |
| Scheduler.Loop.OpenTerm | NuGet - DuckRun.Core/Scheduler/DuckRunSchedulerService.cs:43-48 | Becoming leader rebuilds the whole table from now and begins a sound term. |
| Scheduler.Loop.FireDue | NuGet - DuckRun.Framework/Scheduler/SchedulerLoop.cs:87-110 | One pass: which entries and attempts change, also when the gate throws midway. |
| Scheduler.Loop.Turn | NuGet - DuckRun.Framework/Scheduler/SchedulerLoop.cs:56-110 | A turn opens a term exactly on a leadership edge, keeps past terms, makes one pass from there, leaves every enabled job dealt with up to now unless the gate threw, and while readings do not go back each term ends before the next begins. |
| ClusterSchedule.AttemptedAtMostOnce | NuGet - DuckRun.Core/Scheduler/DuckRunSchedulerService.cs:43-87 | Over terms that do not overlap no occurrence is attempted twice. |
| ClusterSchedule.FailoverAccount | NuGet - DuckRun.Core/Scheduler/DuckRunSchedulerService.cs:43-87 | An occurrence is attempted exactly when it is not between one term's last tick and the next term's start. |
| ClusterSchedule.AttemptedTwiceIff | NuGet - DuckRun.Core/Scheduler/DuckRunSchedulerService.cs:43-87 | Two terms both attempt an occurrence exactly when it lies inside both. |
| ClusterSchedule.LoopTermsSucceed | NuGet - DuckRun.Framework/Scheduler/SchedulerLoop.cs:56-110 | The terms a loop has gone through, with readings that never went back, are for every enabled job a succession of covered spans. |
| ClusterSchedule.LoopAttemptsAtMostOnce | NuGet - DuckRun.Framework/Scheduler/SchedulerLoop.cs:56-110 | However often leadership comes and goes, a loop attempts no occurrence twice. |
| ClusterSchedule.LoopAccount | NuGet - DuckRun.Core/Scheduler/DuckRunSchedulerService.cs:43-87 | Since its first term a loop has attempted exactly the occurrences outside the gaps between its terms. |
| ClusterSchedule.LeasedTermsDoNotOverlap | NuGet - DuckRun.Redis/Cluster/RedisClusterCoordinator.cs:163-200 | Terms spent within leases do not overlap. |
| ClusterSchedule.LeasedClusterFiresOnce | README.md:253-255 | The abstract statement: of any covered tracks, kept within leases throughout, no two attempt one occurrence. |
| ClusterCron.RunKeepsExclusive | NuGet - DuckRun.Redis/Cluster/RedisClusterCoordinator.cs:163-200 | With prompt turns every interleaving of lease steps and loop turns keeps: spans of different nodes share no time, no two nodes may both go on into the same time, and none into a time another has covered. |
| ClusterCron.PromptClusterFiresOnce | README.md:253-255 | For any leases: if no leading turn comes after its node was told to stop, and each that goes on with a span comes within a lease of the call behind the flag the turn before read, no occurrence is attempted twice in the cluster. |
| ClusterCron.OneFiringIff | README.md:253-255 | For every lease: allowing loops to go on up to a gap after the call behind the last-read flag, and allowing late leading turns or not, is safe in all runs exactly when the gap is at most the lease and late turns are not allowed, or the gap is zero. |
| ClusterCron.LateTurnFiresTwice | NuGet - DuckRun.Core/Scheduler/DuckRunSchedulerService.cs:43-87 | For every lease and longer gap, a run in which an occurrence is attempted by a stalled leader and its successor. |
| ClusterCron.StoppedNodeFiresTwice | NuGet - DuckRun.Redis/Cluster/RedisClusterCoordinator.cs:52-100 | For every lease and gap, a run in which a loop that goes on after its node was stopped and the new leader's both attempt an occurrence. |
| ClusterCron.ClusterAccount | NuGet - DuckRun.Core/Scheduler/DuckRunSchedulerService.cs:43-87 | In every run at all, an occurrence is attempted exactly when it lies inside some node's span, after its start and up to its last tick. |
| ClusterCron.TurnIsLoopTurn | NuGet - DuckRun.Core/Scheduler/DuckRunSchedulerService.cs:43-87 | The machine's turn does to a job what opening a term and one whole pass of the loop do. |
| ClusterCron.UnnoticedReturnFiresTwice | NuGet - DuckRun.Core/Scheduler/DuckRunSchedulerService.cs:43-55 | For every lease, a run in which every leading turn is of a running node and within a lease of the call behind the flag it reads, and yet an occurrence is attempted by two nodes. |
| Executor.JobExecutor.RequestCancel | NuGet - DuckRun.Framework/Runs/JobExecutor.cs:24-30 | The token of a run in flight is signalled; any other request has no effect. |
| Executor.JobExecutor.CreateAndStoreRun | NuGet - DuckRun.Framework/Runs/JobExecutor.cs:32-43 | A fresh pending run is stored and reported. |
| Executor.JobExecutor.ContinueRun | NuGet - DuckRun.Framework/Runs/JobExecutor.cs:52-134 | Which snapshots are stored and reported in every case; that a body that runs ends succeeded, failed with its error, timed out or cancelled by what it did; that the live entry goes; and exactly when an error escapes. |
| Executor.PublishedIsLifecycle | NuGet - DuckRun.Core/Runs/JobExecutor.cs:45-128 | Every history is pending, maybe running, then one terminal state with start before end, exactly unless an argument error escapes. |
| Executor.EndMeans | NuGet - DuckRun.Core/Runs/JobExecutor.cs:62-128 | How a run ends, case by case: what fails first decides; else by the body: returned, threw an error, threw a cancellation before or after its timeout. |
| Executor.EndsTerminalIff | NuGet - DuckRun.Core/Runs/JobExecutor.cs:79-112 | Framework runs always end terminal; Core runs exactly when the target fails or the arguments build, and then as on Framework. |
| Executor.UndisturbedIsContinueRun | NuGet - DuckRun.Framework/Runs/JobExecutor.cs:52-110 | The steps of one execution in any scenario, undisturbed, leave the reports, stored value and live table that the method leaves. |
| Executor.EveryRunKeepsItsLifecycle | NuGet - DuckRun.Core/Runs/JobExecutor.cs:25-115 | However steps, failures, delays and cancellations interleave: a run's reports are a legal lifecycle and its stored value the newest; it is live exactly between being taken up and its last act; once stamped it has published what the method publishes in the scenario it met. |
| Executor.StampedEndsByItsBody | NuGet - DuckRun.Framework/Runs/JobExecutor.cs:93-134 | In every interleaving a stamped run whose body ran ends by what that body was told to have done, timeout and error included. |
| Executor.StampedEndsByItsError | NuGet - DuckRun.Framework/Runs/JobExecutor.cs:66-86 | And one kept from running ends failed with the error it was told of, or pending where argument errors are not caught. |
| Executor.CreatedAsAsked | NuGet - DuckRun.Framework/Runs/JobExecutor.cs:32-43 | Its job, trigger and creation time are those of the request that created it. |
| Executor.InterleavedReportsGrow | NuGet - DuckRun.Core/Runs/JobExecutor.cs:25-115 | Reports of one run never lose a field and never leave a terminal state, however executions interleave. |
| Executor.SignalledIffRequested | NuGet - DuckRun.Core/Runs/JobExecutor.cs:16-23 | The token of a live run is signalled exactly when cancellation was requested while the run was live. |
| Executor.CancelledWasRequested | NuGet - DuckRun.Core/Runs/JobExecutor.cs:117-128 | With bodies that cancel only on their token or timeout, a run ends cancelled only if that was requested while it was live, or the host was stopping. |
| Ingest.IngestService.SendRuns | Control Dashboard - Backend/Ingest/IngestServiceImpl.cs:55-100 | The upsert loop is the fold of insert-or-merge over the batch. |
| Ingest.RowFields | Control Dashboard - Backend/Ingest/IngestServiceImpl.cs:86-94 | For any stream: optional fields hold the last value present, the others the last value, the creation time the first. |
| Ingest.RowKeepsOrigin | Control Dashboard - Backend/Ingest/IngestServiceImpl.cs:84-95 | A row stays with the project that reported it first and keeps its creation time, whoever sends later records. |
| Ingest.BatchStamps | Control Dashboard - Backend/Ingest/IngestServiceImpl.cs:60-96 | A batch touches the rows of its own runs only and stamps each with its time. |
| Ingest.BatchKeepsMirror | Control Dashboard - Backend/Ingest/IngestServiceImpl.cs:55-100 | On a growing stream each row shows its run's last record. |
| Ingest.ReceiveTimeIsAside | Control Dashboard - Backend/Ingest/IngestServiceImpl.cs:94 | The receive time influences nothing else. |
| Reporting.Reporter.ReportRun | NuGet - DuckRun.Core/Reporting/GrpcDashboardReporter.cs:80 | The snapshot joins the end of the queue. |
| Reporting.Reporter.FlushOnce | NuGet - DuckRun.Core/Reporting/GrpcDashboardReporter.cs:161-184 | At most a hundred of the oldest records leave, once, and nothing is repeated or reordered. |
| Reporting.RowShowsLastDelivered | Control Dashboard - Backend/Ingest/IngestServiceImpl.cs:55-100 | Whichever batches are lost, a row exists exactly if a record arrived, and shows the last that did. |
| Reporting.BatchingDoesNotMatter | NuGet - DuckRun.Core/Reporting/GrpcDashboardReporter.cs:161-184 | Batches amount to applying the delivered records one by one, apart from the receive time. |
| Reporting.ReportsGrow | NuGet - DuckRun.Core/Reporting/GrpcDashboardReporter.cs:211-227 | Growing snapshots become growing records. |
| Reporting.RowSaysRun | NuGet - DuckRun.Core/Reporting/GrpcDashboardReporter.cs:211-227 | A row that shows a run's record has every field of the run; an empty error text reads as none. |
| Reporting.FirstRecordMakesRow | Control Dashboard - Backend/Ingest/IngestServiceImpl.cs:66-83 | The first record of a run makes one row, of the sender's project, that shows it. |
| Reporting.DashboardShowsPublished | NuGet - DuckRun.Core/Reporting/GrpcDashboardReporter.cs:161-227 | A row shows a snapshot that was really reported, the last to arrive. |
| RunToDashboard.RowShowsSomeSnapshot | Control Dashboard - Backend/Ingest/IngestServiceImpl.cs:55-100 | Whatever interleaves and is lost, a row belongs to an execution and shows one of its published snapshots. |
| RunToDashboard.NothingLostShowsOutcome | Control Dashboard - Backend/Ingest/IngestServiceImpl.cs:55-100 | With nothing lost or queued every run has its row, newest snapshot shown; a finished run's row says how it ended. |
| RunStore.InMemoryJobRunStore.Add | NuGet - DuckRun.Core/Runs/InMemoryJobRunStore.cs:11-26 | Lists stay the newest `maxPerJob` of the unbounded log; the lookup holds exactly listed and stray runs at their latest value. |
| RunStore.InMemoryJobRunStore.Update | NuGet - DuckRun.Core/Runs/InMemoryJobRunStore.cs:28-32 | The same invariant across updates, of evicted runs too. |
| RunStore.InMemoryJobRunStore.Get | NuGet - DuckRun.Core/Runs/InMemoryJobRunStore.cs:34 | The latest value of a listed or stray run, nothing for any other. |
| RunStore.InMemoryJobRunStore.GetRecentForJob | NuGet - DuckRun.Core/Runs/InMemoryJobRunStore.cs:36-47 | The latest values of the newest min(take, cap) runs, newest first, none missing. |
| RunStore.InMemoryJobRunStore.CountInFlight | NuGet - DuckRun.Core/Runs/InMemoryJobRunStore.cs:49-62 | The number of listed runs whose latest value is running. |
| RunStore.ListedAfterAdd | NuGet - DuckRun.Core/Runs/InMemoryJobRunStore.cs:17-23 | Adding lists the new run and unlists exactly what is pushed out. |
| RunStore.LogIsNewestFirst | NuGet - DuckRun.Core/Runs/InMemoryJobRunStore.cs:17 | Later runs of a job stand in front of earlier ones. |
| RunStore.LatestIsLast | NuGet - DuckRun.Core/Runs/InMemoryJobRunStore.cs:28-32 | The latest value of a run is the one in the last operation on it. |
| RunStore.RunningAmongCounts | NuGet - DuckRun.Core/Runs/InMemoryJobRunStore.cs:56-59 | The count is the number of those runs whose latest value is running. |
| RunStore.StrayIffUpdatedAfterEviction | NuGet - DuckRun.Core/Runs/InMemoryJobRunStore.cs:28-32 | Runs in the lookup but in no list are exactly those updated after eviction. |
| ConsoleStore.ConsoleRunLog.Append | NuGet - DuckRun.Core/Logging/ConsoleRunLog.cs:8-15 | The ring holds the newest `max` entries ever appended. |
| ConsoleStore.BoundsHold | NuGet - DuckRun.Core/Logging/InMemoryConsoleStore.cs:24-56 | In every interleaving tracked runs are duplicate-free and, outside the lock, the newest linked; live buffers hold their newest entries. |
| ConsoleStore.QuietStoreIsExact | NuGet - DuckRun.Core/Logging/InMemoryConsoleStore.cs:44-56 | With no call under way exactly the tracked runs have buffers, within the bound. |
| ConsoleStore.EachEntryLandsOnce | NuGet - DuckRun.Core/Logging/InMemoryConsoleStore.cs:24-36 | An entry is appended to one buffer only, once, and of its own run. |
| ConsoleFlush.EfCoreConsoleStore.DrainAvailable | NuGet - DuckRun.EfCore/Stores/EfCoreConsoleStore.cs:101-105 | Batch then queue keeps its order; the batch fills up or the queue empties. |
| ConsoleFlush.EfCoreConsoleStore.FlushBatch | NuGet - DuckRun.EfCore/Stores/EfCoreConsoleStore.cs:107-128 | A batch is saved whole or dropped whole, and conservation holds. |
| ConsoleFlush.EfCoreConsoleStore.Turn | NuGet - DuckRun.EfCore/Stores/EfCoreConsoleStore.cs:67-87 | One wake-up handles the oldest entries, at most a batch of them. |
| ConsoleFlush.EfCoreConsoleStore.FinalFlush | NuGet - DuckRun.EfCore/Stores/EfCoreConsoleStore.cs:90-98 | The stop handles at most one batch; every accepted entry is then in the database exactly when what was queued fits one batch, that batch is saved, and every batch before was. |
| ConsoleFlush.NothingLostIff | NuGet - DuckRun.EfCore/Stores/EfCoreConsoleStore.cs:90-128 | The same condition for any conserved store, decided before the last flush from the queue length and the batches so far. |
| ConsoleFlush.CleanStopLosesTail | NuGet - DuckRun.EfCore/Stores/EfCoreConsoleStore.cs:92-98 | A store handed any entries, closed and stopped with a database that never fails keeps the first batch, and loses nothing exactly when there is no more than that. |

## Left out

- Column length limits, owners, members, roles and timestamps of groups and projects; project counts in the tree view.
- Identifier generation: new identifiers are parameters, and a clash with a stored one fails the request.
- The database: handlers are atomic, prefix search is exact, collations and SQL are not modelled.
- Unicode: which characters are letters, digits, blanks and how they lower-case is a parameter with the laws the proofs need; `AsciiIsLawful` shows they can be met.
- ClusterSchedule.LeasedClusterFiresOnce: terms are taken to be covered and spent within the lease; `ClusterCron` derives both from single turns.
- ClusterCron.OneFiringIff: node clocks are taken to agree with Redis's clock, and a turn to take no time; one job at a time.
- Scheduler.Loop.Turn: a wall clock that goes back is allowed, but terms are then only known to be covered, not to be in order.
- Job names compare without case in the source; here names are distinct by equality.
- The cron library: parsing, time zones and daylight saving; a schedule is a set of occurrences and an unreadable one is empty.
- SlotGate.ConcurrencyTracker.Release: integer wrap-around is not modelled; the counter is proved to stay in range.
- A slot leaks when creating its run throws or its task's token is already cancelled (DuckRunController.cs:28-41); the gate is modelled up to handing out the slot.
- Redis heartbeats, node listing, connection set-up and disposal of connections.
- Store failures during an execution, dependency injection, reflection and log output: a job body is its outcome.
- A cancellation thrown by a body of its own accord is allowed; `CancelledWasRequested` is about bodies that heed their token.
- Aliasing of run objects: the source stores and reports one mutable object; here every store and report takes a snapshot at the same points.
- RunStore.InMemoryJobRunStore.Add: operations are atomic, identifiers fresh, and the cap not negative; a concurrent reader between the two index updates is not modelled.
- ConsoleStore.ConsoleRunLog.Append: limits are not negative; the run limit's floor of one is not needed by the proofs.
- The log queue and its flush loop, which repeat the run queue; the handshake, heartbeat and job-definition upserts, whose merges are of the same kind as the run merge.
- The EF6 copies of the stores, the web interface, authentication, API keys and connection strings.
