# El Centinela: verified models

A Dafny model of the parts of El Centinela, a backend that drives Proxmox VE, where the order of
events or the arithmetic matters, with proofs about every input, every run or every reachable state.
`dafny verify dfyconfig.toml` checks everything.

| component | files |
|---|---|
| Task-tracking pool: queue, workers, timers, recovery and reconciler as interleaved atomic steps; back-off of one copy | `TaskPool`, `TaskPoolCopies`, `TaskPoolOnce`, `TaskPoolEvents`, `TaskPoolPass`, `TaskPoolProgress`, `TaskPoolQueries`, `TaskPoolLifecycle`, `PoolSeguimiento`, `Tracking` |
| Mutual exclusion per instance: lock, check, register, release, with the faults of the store | `Exclusion` |
| Capacity: arithmetic, margin, admissions over runs, the list of reservations | `CapacityMath`, `Capacity`, `CapacityRuns`, `CapacitySafety`, `CapacityIncrements`, `CapacityWitnesses`, `Reconfiguration`, `ReservationLedger`; from the end of a task to the release: `ReservationRelease` |
| Alert evaluator: hysteresis, deduplication, turns of many replicas | `AlertKey`, `AlertStreak`, `EvaluadorAlertas` |
| Proxmox simulator: deferred effects, locks, snapshot trees, any order of a pass | `SnapshotTree`, `SimModel`, `SimInvariant`, `SimOrder`, `SimRollback`, `SimPending`, `SimPower`, `SimAnswers`, `SimInstance`, `Simulador` |
| Public references of instances and masking of VMIDs in texts and JSON trees | `Positional`, `InstanceRef`, `Masking` |
| Sessions and their copies, whole or overlapping operations; state of the node and its copies | `Sessions`, `SessionRaces`, `NodeStatus` |
| Shared | `Int64`, `KeyStore`, `Wrappers` |

How the model is built:

- What the source updates in place is a class (`PoolSeguimiento`, `Seguimiento`, `Guardian`,
  `CuotasService`, `EvaluadorAlertas`, `Instancia`, `Snapshot`, `Simulador`, `OfuscadorVMID`,
  `AuthService`, `NodoService`).  Each method ensures that the new state is a function of the old
  one; the protocol properties are lemmas about those functions and about runs of them.
- Concurrency is a state machine whose steps are the critical sections, channel operations, store
  operations and database calls of the source.  A run is any finite sequence of enabled steps.
- Clocks, answers of Proxmox, of the database and of the store, random identifiers, `strconv.Atoi`
  and `fmt.Sscan` are parameters or choices of a step, so a theorem holds for every one of them.
- Go's 64-bit wrap-around is explicit (`Int64.Wrap64`) wherever the source computes with durations
  or bytes.  Percentages are real numbers.

Where a promise turned out not to hold, the model keeps the code's behaviour and proves when it
does hold:

- A task can be in the pool twice, and TASK_FINISHED can fire twice with different outcomes.  Each
  task stays in one place if and only if every entry from outside finds it unmarked
  (`AtMostOnceIffGuarded`); even then a list read earlier brings a closed task back
  (`FinishedTwiceIsReachable`).  With a test of the row as well, a task has one copy if and only if
  every entry of it is sound (`RunSingleIffSound`), and is announced once
  (`SoundEntriesAnnounceOnce`); each closure committed on its closed row is one
  announcement more (`TwiceIffLateCommit`), and such a commit always goes back to an unsound entry
  (`LateCommitHasUnsoundEntry`).
- A closed row may never be announced: a restart between the commit and the event loses it
  (`LostAnnouncementIsReachable`), and so does a commit that takes effect but is reported as failed
  (`UnreportedClosureIsReachable`).  A closure of a task that only one goroutine has is announced, once,
  if and only if neither happens (`ClosingIsAnnouncedIff`).
- The reservation of a creation whose completion is not announced is never released: it stays in
  every later run if and only if a restart comes before the announcement (`ReleasedIffAnnounced`,
  `LostReservationIsReachable`), and takes its memory from the node (`HeldTakesMemory`).
- A pass of the reconciler attends to every legible RUNNING row if and only if encolar never refuses
  it (`PassIsCompleteIffAdmitted`).  A row whose instance id is not a number is never closed
  (`ClosableIffLegible`).
- More queries than workers can be in progress, because recovery starts its own verifiers.  For every
  table and number of workers this happens if and only if recovery finds an expired row, and the most
  that can be reached is the workers plus as many verifiers as there are expired rows and turns: twice
  the workers if and only if there are as many such rows (`QueriesReachIff`, `MoreQueriesThanWorkersIff`).
- The back-off stays between one and five seconds if and only if the tracking limit is under 162
  seconds; the default of three minutes is not (`BackoffSafeIff`, `DefaultTimeoutOverflows`).  The
  number of queries is bounded if and only if it is under 202 seconds (`QueriesBoundedIff`).
- Mutual exclusion degrades by at most one request per lost lock or unreachable store, and that many
  can get in (`OccupantsBoundedByFaults`, `BoundIsReached`).
- The cores-only path of an enlargement writes the capacity cache without the lock, and can admit
  the same memory twice (`UnlockedCacheOvercommits`); such a write is harmless exactly when its
  balance since the reading is not negative (`LateWriteIsHarmlessIff`, `InvThroughoutIffBalanced`).
- A deletion of the cached reading that fails is ignored, and can admit the same memory twice
  (`FailedDeletionOvercommits`); it is harmless exactly when the reading goes on covering
  (`FailedDeletionIsHarmlessIff`, `GuardIsExact`).
- An increment is measured before the lock, and before the digest is read.  An instance that shrinks
  in between makes it too small (`StaleIncrementOvercommits`), or makes it look like no increment,
  which is applied unchecked (`StaleReductionOvercommits`); the exact conditions are
  `StaleIncrementIsSafeIff` and `StaleReductionIsSafeIff`, and the digest closes the rest of the window
  (`DigestClosesTheWindow`).  A request of 2^43 MiB or more can look like a reduction
  (`HugeRequestLooksLikeReduction`, `DeltaIsExactIff`), and sizes that wrap make a full node look
  empty (`WrappedMarginIsTooLarge`).  The margin is the real one if and only if what is spoken for
  exceeds the node by at most 2^63, or by the lower half of a further turn of 2^64
  (`MarginIsExactIff`, `MarginIsExact`), and the checks of a creation are right for every request
  exactly under the same kind of condition on margin and disk (`ChecksAreExact`).
- A refresh whose copy cannot be written gives a token that is refused exactly while an older copy
  lives and can be read (`RefreshWithoutCopy`).  A logout or a revocation whose copies cannot be deleted
  leaves the last token of each closed session working exactly as long, in every later run, until the
  copy expires, is evicted or a further logout deletes it; a further revocation does not
  (`ClosedWithoutDelete`).
- A verification that has read the row can write its copy after a logout has deleted it, and the
  closed session's token is accepted again (`OvertakenLogoutIsReachable`).  A token that was replaced or
  whose session was closed is dead in every later run, whatever interleaves and whatever the store
  does, if and only if the store has no copy of it and nobody is about to write one (`TokenIsDeadIff`,
  `ClosingIsFinalIff`, `RefreshReplacesIff`).  Store and database agree, in every run in which no row
  changes while a copy of it is on its way, wherever no rotation or deletion is pending
  (`NoCrossingIsExact`, `StoreAgreesWithoutCrossings`).
- In the simulator the last edit of a size need not win: a value deferred while the VM ran survives a
  stop and undoes a later edit at the next start (`EditIsUndoneByStart`); it wins exactly when no other
  value is pending (`LastEditWinsIff`).
- The comment on the alert counter says that it expires in three intervals
  (`alert_evaluator_worker.go:228`); the code uses as many intervals as cycles are needed, and so
  does the model.

## Model

| member | source | states |
|---|---|---|
| TaskPool.EveryRunKeepsInv | internal/core/services/seguimiento_tareas.go:357-596 | In every interleaving of creations, workers, timers, start-up recovery, reconciler, database failures, shutdown and restart, a marked id is held by a queue slot or a goroutine, the queue fits its capacity, no more verifiers than turns are at work, and every TASK_FINISHED is of a closed row |
| TaskPool.NoTaskStranded | internal/core/services/seguimiento_tareas.go:386-401 | In every reachable state a RUNNING row is held by a queue slot or a goroutine, or is unmarked, so the reconciler does not skip it |
| TaskPoolPass.PassAttendsUnlessRefused | internal/core/services/seguimiento_tareas.go:614-637 | In every interleaving without restart, each legible row a pass has still to look at is, by its end, found marked and held at that moment or put in the queue by the pass, unless encolar refused it a place |
| TaskPoolPass.PassIsCompleteIffAdmitted | internal/core/services/seguimiento_tareas.go:614-637 | From any reachable state, whatever interleaves with it: a pass attends to every legible RUNNING row of the table if and only if encolar never refuses it |
| TaskPoolPass.RefusedMisses | internal/core/services/seguimiento_tareas.go:633-635 | A refused pass leaves some legible row of its list unattended |
| TaskPoolPass.AttendedIsHeld | internal/core/services/seguimiento_tareas.go:622-636 | What a pass attends to is marked, and held by a queue slot or a goroutine, when the step ends |
| TaskPoolQueries.QueriesAreBounded | internal/core/services/seguimiento_tareas.go:404-466 | In every reachable state at most `Workers` queries of workers and as many of start-up verifiers are in progress |
| TaskPoolQueries.WorkersBoundQueries | internal/core/services/seguimiento_tareas.go:166-168 | If no recovery of the run finds an expired row, all queries together are at most `Workers` |
| TaskPoolQueries.QueriesReachIff | internal/core/services/seguimiento_tareas.go:424-466 | For every table and every split of it by recovery, some run of the process has n queries at once if and only if n is at most the workers plus the expired rows, counted up to the workers |
| TaskPoolQueries.MoreQueriesThanWorkersIff | internal/core/services/seguimiento_tareas.go:166-168 | More than `Workers` queries can be in progress if and only if recovery finds an expired row, and twice `Workers` if and only if it finds as many |
| TaskPoolQueries.RecoveryReachesTheBound | internal/core/services/seguimiento_tareas.go:449-471 | The bound is reached by a run that serves no request before recovery is over |
| TaskPool.FirstClosureIsFinal | internal/core/services/seguimiento_tareas.go:568-596 | Whatever copies, late verifiers or restarts do, the first outcome of a row is never changed nor reopened |
| TaskPoolEvents.AnnouncementsAreUncutCommits | internal/core/services/seguimiento_tareas.go:579-594 | Over every run, the announcements of a task plus the closures still to be announced are the reported commits that no restart cuts from their announcement |
| TaskPoolEvents.AnnouncedOncePerUncutCommit | internal/core/services/seguimiento_tareas.go:579-594 | From a fresh process with nothing left to say, a task is announced exactly once per reported commit that was not cut |
| TaskPoolEvents.ClosureIsAnnouncedIff | internal/core/services/seguimiento_tareas.go:588-594 | A committed closure is announced with its outcome if no restart comes before its announcement, and if one does the task is never announced after it |
| TaskPoolEvents.ClosingIsAnnouncedIff | internal/core/services/seguimiento_tareas.go:579-594 | A closure that takes effect, of a task no other goroutine has: over every run it is announced, once, if and only if it was reported as done and no restart comes before the announcement |
| TaskPoolEvents.UnreportedClosureIsReachable | internal/core/services/seguimiento_tareas.go:579-583 | A run without restart after which a row is closed and never announced: its commit took effect and was reported as failed |
| TaskPoolEvents.LostAnnouncementIsReachable | internal/core/services/seguimiento_tareas.go:579-594 | A run after which a row is closed and no future run of any process ever announces it |
| TaskPoolEvents.SilentForever | internal/core/services/seguimiento_tareas.go:614-637 | A closed task that nobody in the process has, but to unmark it, is never announced again, over every run |
| TaskPoolCopies.MarkerTestIsExact | internal/core/services/seguimiento_tareas.go:386-401 | One step leaves every task in one place with its mark exact if and only if an entry from outside finds its task unmarked |
| TaskPoolCopies.AtMostOnceIffGuarded | internal/core/services/seguimiento_tareas.go:357-401 | Over a whole run from any table, each task stays in at most one place if and only if every outside entry of the run was guarded |
| TaskPoolCopies.DuplicateIsReachable | internal/core/services/seguimiento_tareas.go:614-637 | A concrete run of creator and reconciler that queues the same task twice |
| TaskPoolCopies.FinishedTwiceIsReachable | internal/core/services/seguimiento_tareas.go:614-637 | A guarded run in which TASK_FINISHED fires twice with different outcomes while the row keeps the first |
| TaskPoolOnce.SoundIsExact | internal/core/services/seguimiento_tareas.go:386-637 | One step leaves a task with one copy at most, marked, and of a RUNNING row until its closure, if and only if an entry of the task finds it unmarked and, when let in, its row RUNNING |
| TaskPoolOnce.RunSingleIffSound | internal/core/services/seguimiento_tareas.go:386-637 | The same over every run, for each task |
| TaskPoolOnce.SoundEntriesAnnounceOnce | internal/core/services/seguimiento_tareas.go:386-596 | In every run in which each entry of a task is sound, TASK_FINISHED fires at most once for it |
| TaskPoolOnce.AnnouncedAtMostOncePlusLate | internal/core/services/seguimiento_tareas.go:568-596 | In every run, each announcement of a task beyond the first is paid for by a closure committed on a row already closed |
| TaskPoolOnce.TwiceIffLateCommit | internal/core/services/seguimiento_tareas.go:568-596 | In every run without restart that has said all it had to say, each closure committed on a closed row is one announcement more; with one the task is announced twice, or with two if its first closure was reported as failed |
| TaskPoolOnce.LateCommitHasUnsoundEntry | internal/core/services/seguimiento_tareas.go:614-637 | Before the first such late commit of a run some entry found the task marked, or let it in with its row closed |
| TaskPoolOnce.TwiceHasUnsoundEntry | internal/core/services/seguimiento_tareas.go:614-637 | From a fresh process, a run that announces a task twice has such an entry before the first late commit |
| TaskPoolProgress.EveryRunningRowCanBeClosed | internal/core/services/seguimiento_tareas.go:525-637 | From every reachable state of an active pool there is a continuation of ordinary steps that closes any legible RUNNING row |
| TaskPoolProgress.IllegibleIsNeverClosed | internal/core/services/seguimiento_tareas.go:629-632 | No run closes a row whose instance id does not parse |
| TaskPoolProgress.ClosableIffLegible | internal/core/services/seguimiento_tareas.go:433-437 | A RUNNING row found at start-up can ever be closed if and only if its instance id parses |
| TaskPoolLifecycle.ShutdownStops | internal/core/services/seguimiento_tareas.go:224-230 | After a shutdown, over every run of the process, nothing enters the queue |
| TaskPoolLifecycle.RestartRecovers | internal/core/services/seguimiento_tareas.go:424-445 | A new process has an empty queue and no marks, and its recovery finds exactly the legible RUNNING rows |
| PoolSeguimientoClass.PoolSeguimiento.constructor | internal/core/services/seguimiento_tareas.go:196-204 | A new pool is inactive and empty, with the default buffer when none is given |
| PoolSeguimientoClass.PoolSeguimiento.Iniciar | internal/core/services/seguimiento_tareas.go:211-214 | Starting only makes the pool admit work |
| PoolSeguimientoClass.PoolSeguimiento.Apagar | internal/core/services/seguimiento_tareas.go:224-230 | The pool refuses work from then on, and the channel that stops workers and reconciler is closed, once however often it is called |
| PoolSeguimientoClass.PoolSeguimiento.Encolar | internal/core/services/seguimiento_tareas.go:386-401 | The task goes in and is marked exactly when the pool is active and has room; otherwise it ends unmarked and outside |
| PoolSeguimientoClass.PoolSeguimiento.Tomar | internal/core/services/seguimiento_tareas.go:404-414 | A worker takes the oldest task and the marks stay |
| PoolSeguimientoClass.PoolSeguimiento.Desmarcar | internal/core/services/seguimiento_tareas.go:571-575 | Closing removes the mark and nothing else |
| PoolSeguimientoClass.PoolSeguimiento.Reconciliar | internal/core/services/seguimiento_tareas.go:614-637 | A pass that nothing interferes with queues, in order, the unmarked legible rows of the list as far as they fit, marks exactly those, and changes nothing else |
| PoolSeguimientoClass.PoolSeguimiento.Recuperar | internal/core/services/seguimiento_tareas.go:424-472 | Recovery that nothing interferes with splits the legible rows by age, marks the expired ones, queues the others as far as they fit and leaves the rest unmarked |
| PoolSeguimientoClass.PoolSeguimiento.Clasificar | internal/core/services/seguimiento_tareas.go:432-444 | The loop over the rows gives the two age classes in the order of the list |
| PoolSeguimientoClass.PoolSeguimiento.EncolarReanudadas | internal/core/services/seguimiento_tareas.go:467-471 | Every row is offered; the first ones go in as far as they fit, the others end unmarked |
| PoolSeguimientoClass.UnfollowedContents | internal/core/services/seguimiento_tareas.go:622-632 | What a pass wants to queue is exactly the unmarked legible rows of the list |
| PoolSeguimientoClass.AgeDecides | internal/core/services/seguimiento_tareas.go:433-444 | The expired class is that of the legible rows older than the window, and the other that of the rest |
| PoolSeguimientoClass.AgeClassesPartition | internal/core/services/seguimiento_tareas.go:433-444 | Recovery puts every legible row in exactly one of its two classes, by age |
| Tracking.CreationNeedsExactOK | internal/core/services/seguimiento_tareas.go:79-91 | A creation is completed by "OK" alone, every other action also with warnings, and a completed result carries no reason |
| Tracking.Seguimiento.Consultar | internal/core/services/seguimiento_tareas.go:525-565 | One query closes the task if and only if Proxmox says it ended or the limit passed, the first taking precedence; it is completed exactly when Proxmox said "OK", or warnings and the action is no creation, failed with the text of Proxmox when it said anything else, and failed with TIMEOUT and its message when it said nothing; otherwise it waits the interval, or 1, 2, 4 and then 5 seconds after failures |
| Tracking.Seguimiento.VerificarUnaVez | internal/core/services/seguimiento_tareas.go:477-492 | The only query of an expired task always closes it, with what Proxmox says or with TIMEOUT |
| Tracking.CreationIffNamed | internal/core/ports/tarea_port.go:29-38 | An action is a creation if and only if it spells one of the four names, in any case, between white space |
| Tracking.WaitIsCappedPower | internal/core/services/seguimiento_tareas.go:548-556 | For 1 to 34 failures in a row the wait is the capped power of two |
| Tracking.WaitOverflowsAt35 | internal/core/services/seguimiento_tareas.go:551-553 | The 35th wait is negative in 64 bits |
| Tracking.WaitIsDoubling | internal/core/services/seguimiento_tareas.go:551-556 | Every wait is one second doubled in 64 bits once per failure after the first, capped at five seconds |
| Tracking.LeastAgeFrom35 | internal/core/services/seguimiento_tareas.go:551-556 | The least age at every failure from the 35th on, through the eight later waits that are positive again and up to the 202 seconds after which all waits are zero |
| Tracking.FailuresTakeTime | internal/core/services/seguimiento_tareas.go:536-556 | In every possible history the count of failures in a row bounds the age of the task from below |
| Tracking.FailuresFitIff | internal/core/services/seguimiento_tareas.go:536-556 | Some history under a limit has n failures in a row if and only if the least age of the n-th is within the limit |
| Tracking.BackoffSafeIff | internal/core/services/seguimiento_tareas.go:543-556 | Every wait of every possible history lies between 1 and 5 seconds if and only if the limit is under 162 seconds |
| Tracking.DefaultTimeoutOverflows | internal/core/services/seguimiento_tareas.go:152-154 | With the default limit of three minutes some history has a wait outside that range, and up to exactly 46 failures in a row fit |
| Tracking.TrackingTerminates | internal/core/services/seguimiento_tareas.go:525-565 | Under any limit below 202 seconds the number of queries of one holder has an explicit bound |
| Tracking.QueriesBoundedIff | internal/core/services/seguimiento_tareas.go:525-565 | The number of queries of one holder is bounded if and only if the limit is under 202 seconds |
| Exclusion.StepKeepsInv | internal/core/services/exclusion_instancias.go:40-79 | Every step of requests, finalizers, creations and faults keeps: a protected request in the section owns the lock, and at most one protected request occupies an instance |
| Exclusion.OccupantsBoundedByFaults | internal/core/services/exclusion_instancias.go:35-79 | On every run, an instance is occupied by at most one request more than its lock losses inside the section and lockless reservations |
| Exclusion.MutualExclusion | internal/core/services/exclusion_instancias.go:35-39 | Without such faults at most one request has passed the check or has its guarded task RUNNING |
| Exclusion.BoundIsReached | internal/core/services/exclusion_instancias.go:51-56 | For every number of faults and every VMID some run has that many and one more occupants |
| Exclusion.LostLockLetsTwoIn | internal/core/services/exclusion_instancias.go:14-22 | With the store always answering, one lock lost inside the section is enough for two occupants |
| Exclusion.TheWayOfARequest | internal/core/services/exclusion_instancias.go:37-79 | The phases of a request, its lock and its row under every step; no step of another touches them |
| Exclusion.LocksAndCreations | internal/core/services/exclusion_instancias.go:58-67 | Which steps change locks and rows of creations, and how |
| Exclusion.RowKeepsOthersOut | internal/core/services/exclusion_instancias.go:37-39 | From its registration on, over every run until it ends, the row of a request keeps every other request of its instance out |
| Exclusion.CreationStays | internal/core/services/exclusion_instancias.go:69-77 | The same for the row of a creation |
| Exclusion.EndLetsIn | internal/core/services/exclusion_instancias.go:69-78 | When the only row of an instance ends, the next check finds it free |
| Exclusion.Guardian.Reservar | internal/core/services/exclusion_instancias.go:40-79 | When the request is let in, told that the instance is busy, refused for lack of an answer, or cancelled, each exactly; who is let in holds the lock if it was obtained; who is not leaves no lock it could release |
| Exclusion.Guardian.Soltar | internal/core/services/exclusion_instancias.go:58-67 | A release removes the lock only if it still belongs to the request |
| CapacityMath.PercentageIsCeiling | internal/core/services/nodo_service.go:208-214 | The headroom is the exact ceiling of total times p over 100, is at most the total, and no intermediate result leaves 64 bits |
| CapacityMath.SizesAreExact | internal/core/services/cuotas_service.go:275-285 | A size is accepted if and only if it is not negative and its bytes fit in 64 bits, and then it is exact |
| CapacityMath.DeltaIsExactIff | internal/core/services/configuracion_instancias.go:70-77 | The 64-bit increment is the real one if and only if the real one fits, in particular under 2^43 MiB |
| CapacityMath.HugeRequestLooksLikeReduction | internal/core/services/configuracion_instancias.go:75-85 | At 2^43 MiB the increment is negative, so the capacity is not looked at |
| Capacity.MemoriaVisible | internal/core/services/cuotas_service.go:185-192 | The inner loop gives the memory of the first instance that is the reserved one |
| Capacity.HeadroomIs15Percent | internal/core/services/cuotas_service.go:200-200 | The headroom is 15 per cent of the memory, rounded up, and nothing for a node that reports none |
| Capacity.MargenRAMNodo | internal/core/services/cuotas_service.go:173-202 | For any readings, the loops and subtractions in 64 bits give the wrapped margin |
| Capacity.MarginIsExactIff | internal/core/services/cuotas_service.go:173-202 | For every 64-bit reading the code never refuses what fits, and its margin is the real one if and only if nothing is exceeded and the assigned memory does not wrap, or what is exceeded lies in the lower half of a turn of 2^64 |
| Capacity.MarginIsExact | internal/core/services/cuotas_service.go:173-202 | While the assigned memory does not wrap and less than 2^64 is exceeded, the margin is the real one if and only if what is spoken for exceeds the node by at most 2^63 |
| Capacity.WrappedMarginIsTooLarge | internal/core/services/cuotas_service.go:173-202 | Two readings of a full node, one within that range, whose margin looks like an empty node |
| Capacity.AdmissionFits | internal/core/services/cuotas_service.go:149-151 | With an admitted positive reservation in the list, assigned or used memory, headroom and reservations stay within the node's memory |
| Capacity.EnlargementFits | internal/core/services/cuotas_service.go:263-265 | The same with an accepted increment of an instance |
| Capacity.AdmittedWasAdvertised | internal/core/services/nodo_service.go:193-206 | No request is admitted that the quota advertised from the same reading would not cover |
| Capacity.AdvertisedIsAdmitted | internal/core/services/nodo_service.go:193-206 | Without reservations, and with usage not under what is assigned, exactly the advertised sizes are admitted |
| Capacity.AppearingDoesNotRaise | internal/core/services/cuotas_service.go:185-193 | A reserved instance that shows up at its reserved size does not raise what is spoken for |
| Capacity.ReleaseFreesTheUncovered | internal/core/services/cuotas_service.go:181-194 | Releasing a reservation lowers what is spoken for by exactly what the inventory does not show of it |
| Capacity.OtherNodesDoNotCount | internal/core/services/cuotas_service.go:175-184 | The margin of a node does not depend on instances of other nodes |
| CapacityRuns.LedgerCovers | internal/core/services/cuotas_service.go:181-194 | At a fresh reading the uncovered reservations are at least what admitted creations will still add |
| CapacityRuns.StepCover | internal/core/services/cuotas_service.go:59-352 | What each step adds to or takes from the cover of any reading: smaller appearances, reductions and removals add; releases, attached VMIDs and enlargements take |
| CapacityRuns.StepTotal | internal/core/services/cuotas_service.go:59-352 | What each step adds to the assigned and pending memory, apart from outsiders |
| CapacityRuns.SectionEnds | internal/core/services/cuotas_service.go:99-124 | An answer of the creation frees the lock, deletes the cached reading unless that fails, and touches nothing outside the list |
| CapacityRuns.SectionsAndReadings | internal/core/services/cuotas_service.go:68-124 | Only an admission opens a section and only answers close it; which steps write, delete and read the cached reading, and what |
| CapacitySafety.GuardIsExact | internal/core/services/cuotas_service.go:59-352 | One step keeps the invariant if and only if it is guarded: a late cache write still covers, a reading whose deletion fails goes on covering, a PUT with its real increment fits |
| CapacitySafety.FailedDeletionIsHarmlessIff | internal/core/services/cuotas_service.go:345-357 | A release whose deletion of the cached reading fails, which is ignored, is harmless if and only if the reading covers in excess what it does not show of the reservation |
| CapacitySafety.LateWriteIsHarmlessIff | internal/core/services/cuotas_service.go:227-239 | The unlocked cache write after any run is harmless if and only if what the ledger had in excess at the reading, plus what appeared smaller, shrank or went since, covers what was released, attached and enlarged since |
| CapacitySafety.InvThroughoutIffBalanced | internal/core/services/cuotas_service.go:59-352 | On every run from an empty list, the invariant holds throughout if and only if every late write has a balance that is not negative, every PUT fits with its real increment, and no reading that should have been deleted stays without covering |
| CapacitySafety.NoOvercommit | internal/core/services/cuotas_service.go:173-273 | On every such run, assigned memory plus what admitted creations will add stays 15 percent under the node's memory, but for what outsiders added |
| CapacitySafety.UncoveredReadingOvercommits | internal/core/services/cuotas_service.go:227-239 | From a reading that does not cover, the next admission of its whole margin goes over the limit |
| CapacitySafety.AdmissionFitsItsReading | internal/core/services/cuotas_service.go:149-151 | At every admission of memory in a run, assigned or used memory of its reading, headroom and all reservations are within the node |
| CapacitySafety.EnlargementFitsItsReading | internal/core/services/cuotas_service.go:263-265 | At every enlargement in a run, the same with the size measured in that reading |
| CapacityIncrements.UnshrunkIsSafe | internal/core/services/configuracion_instancias.go:68-82 | An accepted increment of an instance that has not shrunk since it was measured always fits, and keeps the invariant if and only if the cached reading is deleted or covers the increment all the same |
| CapacityIncrements.StaleIncrementIsSafeIff | internal/core/services/configuracion_instancias.go:68-82 | All accepted targets keep the invariant if and only if the instance has shrunk since it was measured by no more than the room, and the cover if the reading stays, that the checked margin leaves unused |
| CapacityIncrements.StaleReductionIsSafeIff | internal/core/services/configuracion_instancias.go:81-85 | All targets that are no increment as measured, which are sent unchecked, keep the invariant if and only if what the instance shrank fits in the room left and in the cover of the cached reading |
| CapacityIncrements.DigestClosesTheWindow | internal/core/services/configuracion_instancias.go:47-80 | When sizes do not change behind the digest, an instance not smaller at the reading of the digest than measured makes every PUT of the request fit, whatever happens in between, and keep the invariant if and only if no checked reading stays without covering it |
| CapacityIncrements.AcceptedPutRefusesOthers | internal/core/services/configuracion_instancias.go:78-80 | Once a PUT has been accepted with a digest of its own, in use or pending, every other request that read the digest before it is refused |
| CapacityIncrements.RefusedPutChangesNothing | internal/core/services/configuracion_instancias.go:78-80 | A refused PUT changes no size and no digest |
| CapacityWitnesses.UnlockedCacheOvercommits | internal/core/services/cuotas_service.go:227-239 | A run from an empty list in which the unlocked cache write makes admissions exceed the node's whole memory |
| CapacityWitnesses.FailedDeletionOvercommits | internal/core/services/cuotas_service.go:355-357 | A run from an empty list, with no path outside the lock, in which deletions of the cached reading fail and the same memory is admitted twice |
| CapacityWitnesses.StaleIncrementOvercommits | internal/core/services/configuracion_instancias.go:38-82 | A run from an empty list in which an instance shrinks between its measure and the reading of its digest, and the enlargement exceeds the node's memory |
| CapacityWitnesses.StaleReductionOvercommits | internal/core/services/configuracion_instancias.go:81-85 | A run in which a target that is no increment as measured exceeds the node's memory without any check |
| Reconfiguration.ValidarCapacidad | internal/core/services/cuotas_service.go:127-165 | A creation passes if and only if its storage is usable, its RAM is within the margin computed from the reading, its cores within the node's threads and its disk within what pending creations leave, in 64 bits; each refusal has its own cause |
| Reconfiguration.OneMoreDisk | internal/core/services/cuotas_service.go:155-160 | A pending creation counts against a storage exactly when it is on it and the storage is shared or the node is the same |
| Reconfiguration.ChecksAreExact | internal/core/services/cuotas_service.go:127-165 | For every reading, list, node and storage, all requests get the answer they would over unbounded integers if and only if the storage is no use, or its disk does not wrap visibly and the margin is exact or the disk is surely full |
| Reconfiguration.DiskCheckIsExactIff | internal/core/services/cuotas_service.go:155-163 | The check of the disk is right for every size if and only if the pending disk is within the storage or exceeds it by the lower half of a turn of 2^64; otherwise it lets in what does not fit |
| Reconfiguration.ChecksDiffer | internal/core/services/cuotas_service.go:127-165 | Otherwise some request is let in that does not fit |
| Reconfiguration.AdmissionFitsNodeAndStorage | internal/core/services/cuotas_service.go:149-163 | After an admission the RAM commitment fits the node and all pending disk fits the storage |
| Reconfiguration.ObtenerCapacidad | internal/core/services/cuotas_service.go:287-313 | The copy answers if it can be read; without one the three answers of Proxmox do, if the store takes them as new copy; every failure has its own outcome |
| Reconfiguration.AmpliarInstancia | internal/core/services/cuotas_service.go:226-273 | The configuration is written exactly when the capacity is had, the cores fit and, for more RAM, the lock was taken, the list read and the increment is within the margin of that reading; never twice; the cached reading is dropped exactly after a write; each outcome of lock, list, capacity and Proxmox has its own answer |
| Reconfiguration.Reconfigurar | internal/core/services/configuracion_instancias.go:38-103 | Nothing is written unless the three first reads succeed; a written increment passed the checks whenever it fits in 64 bits, requests without increment are always written and drop no reading, a changed digest is never applied, and a reboot is asked for exactly when an applied value is not in use |
| ReservationLedger.QuitarReserva | internal/core/services/cuotas_service.go:390-411 | The slice filtered over itself holds, in order, every entry but those with the id, and the node returned is theirs |
| ReservationLedger.RemovalIsExact | internal/core/services/cuotas_service.go:390-398 | A removal takes away its id and nothing else, changes nothing for an unknown id, and repeating it changes nothing |
| ReservationLedger.RemovalsCommute | internal/core/services/cuotas_service.go:390-398 | Removals of different ids can come in any order |
| ReservationLedger.NodeOfRemoved | internal/core/services/cuotas_service.go:400-411 | The node returned is that of an entry with the id, and empty if there is none |
| ReservationLedger.LedgerIsHistory | internal/core/services/cuotas_service.go:80-124 | After any history of calls and store failures, a write that is taken but reported as failed among them, the list holds exactly what may have been dispatched or was left in without a creation, and was not removed |
| ReservationLedger.LedgerIsExact | internal/core/services/cuotas_service.go:317-352 | With the store working, the list holds exactly the creations that were or may have been dispatched and were not confirmed COMPLETED |
| ReservationLedger.LedgerNeverForgets | internal/core/services/cuotas_service.go:99-112 | Whichever writes are lost or reported as failed, a creation that may have been dispatched and was never confirmed is in the list |
| ReservationLedger.LedgerKeepsOrder | internal/core/services/cuotas_service.go:390-411 | The list keeps the order of admission, without repetition |
| ReservationLedger.CuotasService.AprovisionarInstancia | internal/core/services/cuotas_service.go:59-125 | A creation is accepted exactly when sizes, lock, list, capacity, first save and Proxmox agree, and then the list has one entry more, of memoriaMB times 1048576 and discoGB times 1073741824 bytes; sizes out of range or over what is free leave the list as it was; the stored list follows the history; the cached reading is dropped once the outcome is known |
| ReservationLedger.CuotasService.Revisar | internal/core/services/cuotas_service.go:59-85 | The checks before the first save, each refusal with its answer |
| ReservationLedger.CuotasService.Crear | internal/core/services/cuotas_service.go:93-124 | From the first save on, each answer of the creation leaves the list the history says |
| ReservationLedger.CuotasService.LiberarReserva | internal/core/services/cuotas_service.go:328-352 | With the lock and a readable list the reservation is taken out of the list, and success drops the cached reading of its node; without them nothing changes |
| ReservationLedger.CuotasService.FinalizarReserva | internal/core/services/cuotas_service.go:319-324 | Only a confirmed completion releases the reservation, the history says so, and a failure is told |
| ReservationRelease.HeldIffNotAnnounced | cmd/api/main.go:184-193 | Over every run of pool and reservations together, from any table: a reservation that was or may have been dispatched is in the list exactly while its task has not been announced as completed |
| ReservationRelease.ReleasedIffAnnounced | cmd/api/main.go:184-193 | A completed creation whose closure is committed: over every run its reservation stays for ever if and only if a restart comes before the announcement |
| ReservationRelease.SilentIsHeld | internal/core/services/cuotas_service.go:317-324 | A closed task that nobody in the process has keeps its reservation in the list over every run |
| ReservationRelease.LostReservationIsReachable | internal/core/services/seguimiento_tareas.go:579-594 | A run after which the creation is closed as completed and its reservation is in the list in every future run |
| ReservationRelease.HeldTakesMemory | internal/core/services/cuotas_service.go:180-194 | While a reservation is in the list and its instance is not in the inventory, the margin of the node is short of all its memory |
| AlertKey.EveryLogIsOk | internal/core/services/alert_evaluator_worker.go:361-434 | In any run the alert key says exactly what the last event says, and each event may follow the one before |
| AlertKey.TriggersAreApart | internal/core/services/alert_evaluator_worker.go:361-370 | Between two triggers of a key there is a resolution, or at least 24 hours |
| AlertKey.ResolutionsMatch | internal/core/services/alert_evaluator_worker.go:412-421 | Every resolution carries the id of the latest trigger, and no id is resolved twice |
| AlertStreak.PersistenceFits | internal/core/services/alert_evaluator_worker.go:67-72 | The last check of the configuration is exactly that cycles times interval fit in 64 bits |
| AlertStreak.Validar | internal/core/services/alert_evaluator_worker.go:45-74 | A configuration is accepted exactly when every threshold is over 0, at most 100 and over the recovery value, cycles, window and interval are positive, and three intervals and all cycles fit in 64 bits |
| AlertStreak.CounterIsStreak | internal/core/services/alert_evaluator_worker.go:235-249 | The pending counter is the length of the current streak of high readings, and expires when the streak can no longer go on |
| AlertStreak.StreakIsLongest | internal/core/services/alert_evaluator_worker.go:226-231 | That length is the greatest number of last readings that are all high with gaps under the expiry |
| AlertStreak.TriggersIff | internal/core/services/alert_evaluator_worker.go:235-246 | A reading triggers if and only if it completes the required high readings in a row and no alert is active |
| AlertStreak.ResolvesIff | internal/core/services/alert_evaluator_worker.go:250-252 | A reading resolves if and only if it is under the recovery value and an alert is active |
| AlertStreak.BandIsSilent | internal/core/services/alert_evaluator_worker.go:235-253 | A reading between recovery and threshold emits nothing |
| AlertStreak.EventsHaveReadings | internal/core/services/alert_evaluator_worker.go:232-253 | Over any history, two triggers of a resource are separated by a resolution or a day, every trigger comes from a high reading and every resolution, of the trigger before it, from a reading under the recovery value |
| AlertStreak.TurnsAreApart | internal/core/services/alert_evaluator_worker.go:159-168 | However many replicas try, turns are at least nine tenths of an interval apart |
| AlertStreak.AlertNeedsTime | internal/core/services/alert_evaluator_worker.go:156-168 | Behind an alert there are the required high readings, spanning at least one turn less than their number minus the time one evaluation may take, with any number of replicas |
| EvaluadorAlertasClass.EvaluadorAlertas.TomarTurno | internal/core/services/alert_evaluator_worker.go:159-168 | The turns a replica takes are those of the sequence of all attempts |
| EvaluadorAlertasClass.EvaluadorAlertas.EventsOfKey | internal/core/services/alert_evaluator_worker.go:232-434 | In every reachable state, for every key of a measured resource or of an instance that went down: its events follow one another as allowed, each resolution names the trigger before it, and no trigger is resolved twice |
| EvaluadorAlertasClass.EvaluadorAlertas.DispararAlerta | internal/core/services/alert_evaluator_worker.go:361-370 | A call with a fresh id is added to the key's history, and it is a trigger exactly when no alert is active |
| EvaluadorAlertasClass.EvaluadorAlertas.ResolverAlerta | internal/core/services/alert_evaluator_worker.go:412-421 | A call is added to the key's history, and an active alert is resolved and its id returned |
| EvaluadorAlertasClass.EvaluadorAlertas.Medir | internal/core/services/alert_evaluator_worker.go:228-252 | One reading at or over the threshold counts one cycle more, or the first if the counter has expired, and one under it drops the count; it triggers exactly when the count reaches the cycles and no alert is active, and resolves exactly under the recovery value with an active alert |
| EvaluadorAlertasClass.EvaluadorAlertas.PonerSiNoEsta | internal/core/services/alert_evaluator_worker.go:363-363 | SET NX puts the identifier for 24 hours exactly when the key is absent or has expired |
| EvaluadorAlertasClass.EvaluadorAlertas.SacarSiEsta | internal/core/services/alert_evaluator_worker.go:413-413 | GETDEL takes out the value exactly when it is there and has not expired |
| EvaluadorAlertasClass.EvaluadorAlertas.EvaluarMedicion | internal/core/services/alert_evaluator_worker.go:232-253 | The keys of a resource always say what its history of readings says, the events are those of the history, and other resources are untouched |
| EvaluadorAlertasClass.EvaluadorAlertas.EvaluarCaidas | internal/core/services/alert_evaluator_worker.go:268-310 | For each VMID, in whatever order the maps are walked: one trigger with a fresh id is called if it was running, is not now, no task of Centinela explains it and it is not a stop that Proxmox explains; one resolution if it is running now; nothing otherwise, nor in a first cycle |
| SnapshotTree.TakeKeepsTree | cmd/proxmox-simulador/snapshots.go:90-98 | A new snapshot under the current one keeps unique names, parents before children and a current state that exists |
| SnapshotTree.DeleteKeepsTree | cmd/proxmox-simulador/snapshots.go:148-164 | Filtering a snapshot out and re-parenting its children keeps the list a tree, with the current state on it or on its parent |
| SnapshotTree.ChainFollowsParents | cmd/proxmox-simulador/snapshots.go:12-20 | Going up from a snapshot visits it and then its parent's ancestors, never itself again |
| SnapshotTree.DeleteKeepsAncestry | cmd/proxmox-simulador/snapshots.go:148-159 | A deletion takes the snapshot out of every surviving ancestry and changes nothing else in it |
| SnapshotTree.DeleteKeepsCurrentAncestry | cmd/proxmox-simulador/snapshots.go:160-162 | The current state keeps its remaining ancestors |
| SimInstanceClass.FilterInPlace | cmd/proxmox-simulador/snapshots.go:149-159 | The loop that overwrites the array it reads keeps the other snapshots in order and re-parents exactly the children |
| SimInstanceClass.Instancia.QuitarSnapshot | cmd/proxmox-simulador/snapshots.go:148-164 | On the objects, the deletion is the deletion on lists, and all other fields stay |
| SimInstanceClass.Instancia.AnadirSnapshot | cmd/proxmox-simulador/snapshots.go:94-98 | A snapshot is appended, in place or in a new array, and becomes the current one |
| SimInstanceClass.Instancia.Restaurar | cmd/proxmox-simulador/snapshots.go:119-127 | A rollback stops the instance, restores cores and memory, drops what is pending and names its snapshot |
| SimInstanceClass.Instancia.BuscarSnapshot | cmd/proxmox-simulador/snapshots.go:168-175 | The first snapshot of that name, or none |
| SimInstanceClass.Instancia.SetConfig | cmd/proxmox-simulador/inventario.go:266-279 | One value sets one field, numbers only if they parse |
| SimInstanceClass.Instancia.AplicarPendientes | cmd/proxmox-simulador/inventario.go:258-264 | In whatever order the map is walked, all pending values are applied and none is left |
| SimInstanceClass.Instancia.Editar | cmd/proxmox-simulador/config.go:210-221 | In whatever order the map is walked, the values are set, deferred for a running VM's memory, cores and sockets, and the name is one of the names given |
| SimInstanceClass.EditTouches | cmd/proxmox-simulador/config.go:209-219 | On a running VM an edit defers cores, memory and sockets and touches nothing of what is in use but the rest; otherwise it puts everything in use at once |
| SimInstanceClass.EditSetsConfig | cmd/proxmox-simulador/config.go:209-219 | The other parameters, but names and digest, are set in the configuration, and no other key changes |
| SimInstanceClass.Instancia.Accionar | cmd/proxmox-simulador/instancias.go:305-350 | For every action and state, field by field: which state, PID and result it leaves, that a start, reboot or resume puts the pending values in use, and that nothing else is touched |
| SimPower.StopHolds | cmd/proxmox-simulador/instancias.go:328-336 | An accepted stop, or shutdown, of a running instance ends with OK, the instance off and no PID; over every later run it is off until a start, reboot or resume of it ends |
| SimPower.OffUntilStarted | cmd/proxmox-simulador/tareas.go:61-75 | What is off stays off over every run until a start, reboot or resume of it ends |
| SimPower.StartEndsOn | cmd/proxmox-simulador/instancias.go:312-350 | A start of an instance that is off, a reboot of a running one or a resume of a paused one, however much happens before its end, ends with OK, the instance on, a new PID and nothing pending |
| SimAnswers.ActionAnswer | cmd/proxmox-simulador/instancias.go:274-291 | Every answer to a power action, the refusals in their order, and the task that an accepted one starts |
| SimAnswers.SnapshotAnswer | cmd/proxmox-simulador/snapshots.go:58-100 | The same for taking a snapshot, whose name is 2 to 40 letters, digits, hyphens and underscores from a letter on, is not "current" and is not used |
| SimAnswers.RollbackAnswer | cmd/proxmox-simulador/snapshots.go:104-131 | The same for a rollback: to the snapshot of that name |
| SimAnswers.SnapshotDeletionAnswer | cmd/proxmox-simulador/snapshots.go:133-166 | The same for the deletion of a snapshot |
| SimAnswers.DestructionAnswer | cmd/proxmox-simulador/config.go:254-279 | The same for a destruction: not of a running instance, nor of one under HA without purge |
| SimAnswers.CreationAnswer | cmd/proxmox-simulador/config.go:86-133 | The same for a creation: a new instance is off, locked, with nothing pending and no snapshot |
| SimAnswers.EditAnswer | cmd/proxmox-simulador/config.go:175-220 | The same for an edit: lock, digest and parameters are checked in that order, and only that instance changes |
| SimAnswers.EndOfTask | cmd/proxmox-simulador/tareas.go:61-75 | What the end of each other task leaves, field by field |
| SimInstanceClass.Instancia.Terminar | cmd/proxmox-simulador/tareas.go:69-70 | The effect of any task on the object is its effect on the value |
| SimInstanceClass.Instancia.PonerLock | cmd/proxmox-simulador/tareas.go:51-53 | The lock of an instance is set and nothing else |
| SimInstanceClass.Instancia.Empezar | cmd/proxmox-simulador/tareas.go:51-53 | A new task leaves on the object what it leaves on the instance of the simulator |
| SimInstanceClass.Instancia.Acabar | cmd/proxmox-simulador/tareas.go:65-74 | One iteration of the pass leaves on the object, lock included, what it leaves on the instance of the simulator, with the same result and PIDs |
| SimInvariant.TerminarKeepsInv | cmd/proxmox-simulador/tareas.go:65-74 | Finishing a task ends that task alone and keeps the invariant |
| SimInvariant.RequestKeepsInv | cmd/proxmox-simulador/config.go:79-131 | Every request keeps the invariant |
| SimInvariant.EveryRunKeepsInv | cmd/proxmox-simulador/tareas.go:35-103 | Every run keeps: one unfinished task per VMID at most, its instance present, locks only with such a task, every snapshot list a tree, every pending effect applicable |
| SimInvariant.ReachableIsGood | cmd/proxmox-simulador/tareas.go:35-103 | All of that holds in every state reached from any initial inventory |
| SimInvariant.AcceptedOnlyWhenIdle | cmd/proxmox-simulador/tareas.go:87-103 | A task is accepted only for a VMID without one, and then is its only one |
| SimInvariant.NothingLeftLocked | cmd/proxmox-simulador/tareas.go:63-75 | When the clock has passed every end and the pass is over, nothing runs and nothing is locked |
| SimInvariant.RefusalChangesNothing | cmd/proxmox-simulador/config.go:254-271 | A refused request leaves everything as it was |
| SimOrder.PassEndsItsTasks | cmd/proxmox-simulador/tareas.go:63-75 | A pass in any order ends exactly the tasks it covers and keeps the invariant |
| SimOrder.PassIsFinished | cmd/proxmox-simulador/tareas.go:63-75 | But for the PIDs, a pass in any order gives what each instance's own task gives |
| SimOrder.OrderDoesNotMatter | cmd/proxmox-simulador/tareas.go:63-75 | Any two orders of the same tasks give the same instances, snapshots, locks and results |
| SimRollback.RunRemembers | cmd/proxmox-simulador/snapshots.go:86-98 | Whatever happens in between, a requested snapshot keeps its name, cores and memory until it or its instance is deleted |
| SimRollback.RollbackRestores | cmd/proxmox-simulador/snapshots.go:119-127 | When a rollback ends, the instance has the cores and memory in use when the snapshot was requested, is stopped and unlocked, has nothing pending, and its current snapshot is that one |
| SimPending.LastEditWinsIff | cmd/proxmox-simulador/config.go:210-220 | In every run after an accepted edit of cores or memory without further edit, rollback or removal: whenever nothing is pending, the size in use is the one asked for if and only if the edit was deferred itself or no other value was pending |
| SimPending.RunKeepsNext | cmd/proxmox-simulador/inventario.go:257-263 | Over every such run, stops and starts included, the size the instance will have once nothing is pending does not change |
| SimPending.EditIsUndoneByStart | cmd/proxmox-simulador/config.go:210-220 | A value deferred before a stop undoes a later edit at the next start |
| SimuladorClass.Simulador.TareaActiva | cmd/proxmox-simulador/tareas.go:78-85 | True exactly when some unfinished task is of that VMID |
| SimuladorClass.Simulador.VerificarLibre | cmd/proxmox-simulador/tareas.go:89-103 | Refused as locked if there is a lock, as busy if a task runs, free otherwise |
| SimuladorClass.Simulador.CrearTarea | cmd/proxmox-simulador/tareas.go:35-58 | A task is added under a new PID and, if asked, the instance locked; when tasks take no time, a pass over the due tasks follows at once |
| SimuladorClass.Simulador.TerminarTarea | cmd/proxmox-simulador/tareas.go:65-74 | One iteration of the pass: effect, result, lock |
| SimuladorClass.Simulador.FinalizarTareas | cmd/proxmox-simulador/tareas.go:63-75 | A walk over the map in any order ends exactly the due tasks, as a pass in that order, and leaves none due |
| SimuladorClass.Simulador.SiguienteID | cmd/proxmox-simulador/instancias.go:381-386 | The least free VMID from 100 on |
| SimuladorClass.Simulador.AccionEstado | cmd/proxmox-simulador/instancias.go:274-293 | The due tasks end first, then the action is accepted or refused as the specification says |
| SimuladorClass.Simulador.CrearInstancia | cmd/proxmox-simulador/config.go:79-131 | An instance with a new VMID appears stopped and locked by its creation task |
| SimuladorClass.Simulador.EditarConfig | cmd/proxmox-simulador/config.go:174-222 | An edit is refused for a locked instance, a digest that is not the instance's or a value out of range, and otherwise sets or defers every value given, in any order |
| SimuladorClass.Simulador.CrearSnapshot | cmd/proxmox-simulador/snapshots.go:58-100 | A snapshot task is accepted for a valid new name on a free instance, and saves what is in use |
| SimuladorClass.Simulador.RollbackSnapshot | cmd/proxmox-simulador/snapshots.go:104-129 | A rollback task is accepted for an existing snapshot of a free instance |
| SimuladorClass.Simulador.BorrarSnapshot | cmd/proxmox-simulador/snapshots.go:133-166 | A deletion task is accepted for an existing snapshot of a free instance |
| SimuladorClass.Simulador.BorrarInstancia | cmd/proxmox-simulador/config.go:254-279 | A destruction task is accepted for a free stopped instance, with purge when HA asks for it |
| Positional.FixedOfValue | internal/infrastructure/crypto/instance_ref.go:92-94 | A numeral padded to its width is determined by its value |
| InstanceRef.BlockFits | internal/infrastructure/crypto/instance_ref.go:28-32 | 2^128 is under 62^22, so the padding is never negative |
| InstanceRef.ReferenceShape | internal/infrastructure/crypto/instance_ref.go:71-72 | Every reference is the prefix and 22 base-62 digits whose value is the encrypted block |
| InstanceRef.ReferenceByBytes | internal/infrastructure/crypto/instance_ref.go:67-72 | A reference is "inst_" and 22 digits whose value is that of the enciphered block of twelve zeros and the four bytes of the VMID, the most significant first |
| InstanceRef.AlphabetAt | internal/infrastructure/crypto/instance_ref.go:29-29 | The digits of base 62 are 0-9, a-z and A-Z in that order |
| InstanceRef.DecodesIffEncodes | internal/infrastructure/crypto/instance_ref.go:63-106 | A text decodes to a VMID if and only if it is that VMID's encoding, whatever permutation of blocks the cipher is |
| InstanceRef.DifferentVmidsDifferentReferences | internal/infrastructure/crypto/instance_ref.go:63-73 | Two references are equal if and only if their VMIDs are |
| InstanceRef.OfuscadorVMID.OfuscarVMID | internal/infrastructure/crypto/instance_ref.go:63-73 | The byte buffers and the padding give the encoding, or the error outside 1 to 2^32 - 1 |
| InstanceRef.OfuscadorVMID.PutUint32 | internal/infrastructure/crypto/instance_ref.go:68-68 | The last four bytes become the big-endian number, the first twelve stay |
| InstanceRef.OfuscadorVMID.SoloBase62 | internal/infrastructure/crypto/instance_ref.go:83-87 | True exactly when every character is a base-62 digit |
| InstanceRef.OfuscadorVMID.DoceCeros | internal/infrastructure/crypto/instance_ref.go:96-100 | True exactly when the block is at most 2^32 - 1 |
| InstanceRef.OfuscadorVMID.DesofuscarVMID | internal/infrastructure/crypto/instance_ref.go:77-106 | The checks and buffers give the decoding, or the error |
| Masking.ScanIsRunSubstitution | internal/core/ports/referencia_instancia_port.go:88-89 | Replacing the matches between word boundaries is substituting the whole word runs equal to the number |
| Masking.SurvivesIff | internal/core/ports/referencia_instancia_port.go:88-89 | The number is a word run of the result if and only if it was one and the replacement brings it back |
| Masking.MaskingHides | internal/core/ports/referencia_instancia_port.go:81-90 | No word run of a masked text is the VMID, the other runs stay in order, and masking twice is masking once |
| Masking.MaskingByPlaces | internal/core/ports/referencia_instancia_port.go:81-90 | Wherever the number has no letter, digit or underscore on either side it is replaced, by the reference or "[instancia]", and what is before and after it is masked on its own |
| Masking.NowhereAlone | internal/core/ports/referencia_instancia_port.go:78-90 | A text without such a place is unchanged, and with a public reference no result has one |
| Masking.LockFileIsMasked | internal/core/ports/referencia_instancia_port.go:78-80 | "lock-110.conf" becomes "lock-[instancia].conf" |
| Masking.UnrelatedTextUntouched | internal/core/ports/referencia_instancia_port.go:78-80 | A text without the VMID as a word is unchanged, longer numbers included |
| Masking.TreeMaskingHides | internal/core/ports/referencia_instancia_port.go:104-123 | Over nested maps and lists no text leaf has a place where the VMID stands alone, only text leaves change, and masking twice is masking once |
| Masking.OcultarEnValor | internal/core/ports/referencia_instancia_port.go:104-123 | The recursive copy is the masked tree, and the flag says whether anything changed |
| Masking.OcultarEnCampos | internal/core/ports/referencia_instancia_port.go:109-114 | The loop over a map, in any order, gives the masked map |
| Masking.OcultarEnLista | internal/core/ports/referencia_instancia_port.go:115-120 | The loop over a list gives the masked list |
| Sessions.CacheNeverLies | internal/core/services/auth_service.go:534-556 | With operations one after another, in every state reached while the store takes rotations and deletions, the answer with the copies, or with a store that cannot be read, is the answer of the database |
| Sessions.CachedAnswerIsDatabaseAnswer | internal/core/services/auth_service.go:534-556 | With copies that agree with their rows, or with a store that cannot be read, a token is accepted exactly when the row is active, unexpired and has that token |
| Sessions.AtMostOneAccess | internal/core/services/auth_service.go:428-436 | A session accepts one access token at most, and no two sessions the same |
| Sessions.RefreshReplaces | internal/core/services/auth_service.go:365-445 | With operations one after another: a refresh gives a token that works at once and ends the one before in every later run |
| Sessions.LogoutIsFinal | internal/core/services/auth_service.go:454-485 | With operations one after another: after a logout no token of the session is accepted in any later run |
| Sessions.RevokeOthersLeavesTheKept | internal/core/services/sesiones.go:31-41 | After revoking the others, no token handed out for another session of the user is ever accepted again |
| Sessions.RevokeOthersSparesTheRest | internal/core/services/sesiones.go:28-41 | The kept session and other users' sessions answer as before, whatever the store does |
| Sessions.RefreshWithoutCopy | internal/core/services/auth_service.go:434-436 | If the copy cannot be written, the new token is accepted exactly when there was no live copy to be read, and the old one exactly when there was |
| Sessions.ClosedWithoutDelete | internal/core/services/sesiones.go:16-41 | A logout or revocation whose deletion is lost tells its caller; then, in every later run whatever the store does, the last token of each closed session and no other keeps working exactly while the store can be read and the copy lives, until it is evicted or another logout deletes it |
| Sessions.ClosedLeavesNoKeys | internal/core/services/almacen_sesiones.go:78-84 | A logout or revocation whose deletion is taken leaves neither key of the session, and none comes back in any later run |
| Sessions.AuthService.CrearSesion | internal/core/services/auth_service.go:325-341 | A new active row and its copy |
| Sessions.AuthService.RefrescarToken | internal/core/services/auth_service.go:379-436 | The token is replaced exactly for an active unexpired session with that refresh token and an active user, in the row and in the copy if it is written; otherwise nothing changes |
| Sessions.AuthService.CerrarSesion | internal/core/services/auth_service.go:473-485 | The row is closed only for its own refresh token, and its keys deleted |
| Sessions.AuthService.EliminarSesiones | internal/core/services/almacen_sesiones.go:78-84 | Both keys of exactly the sessions given are listed and deleted in one call, and a failure is told |
| Sessions.AuthService.RevocarSesiones | internal/core/services/sesiones.go:16-41 | Exactly the active sessions of the user, but for the kept one, are closed and returned, and their copies deleted |
| Sessions.AuthService.VerificarSesionAccess | internal/core/services/auth_service.go:534-556 | A live copy that can be read answers; otherwise the row does, and is copied again when it accepts |
| Sessions.AuthService.ReplicarSesion | internal/core/services/auth_service.go:573-588 | The copy lives as long as the refresh token, and is not written after that |
| SessionRaces.PartsAreTheWhole | internal/core/services/auth_service.go:573-588 | An operation split at its write to the store, with both parts at one instant, is the whole operation |
| SessionRaces.WhoWrites | internal/core/services/auth_service.go:573-588 | Every operation to which the answer of the store makes a difference has a write that can come later |
| SessionRaces.TokenIsDeadIff | internal/core/services/auth_service.go:534-556 | Over every interleaving of split and whole operations and any store behaviour: a token that was replaced or whose session was closed is never accepted again if and only if the store holds no unexpired copy of it and none is on its way |
| SessionRaces.ClosingIsFinalIff | internal/core/services/auth_service.go:473-485 | A logout or revocation whose deletion is taken ends the session's token for good if and only if no copy of it is on its way |
| SessionRaces.RefreshReplacesIff | internal/core/services/auth_service.go:428-436 | A refresh whose copy is taken ends the token before for good if and only if no copy of that one is on its way |
| SessionRaces.NoCrossingIsExact | internal/core/services/auth_service.go:534-588 | One event keeps every copy in agreement with its row, or about to be, if and only if no row changes while a copy of it is on its way |
| SessionRaces.StoreAgreesWithoutCrossings | internal/core/services/auth_service.go:534-556 | In every run without such crossings, in which the store takes rotations and deletions, the answer for a session with none of them pending is the answer of the database |
| SessionRaces.OvertakenLogoutIsReachable | internal/core/services/auth_service.go:552-554 | A run in which a verification writes its copy after a logout reported as complete, and the closed session's token is accepted until it expires |
| NodeStatus.CallAnswers | internal/core/services/nodo_service.go:78-109 | Whatever reads and writes of the store fail: a fresh answer is a good reading under ten seconds old, a stale one is the latest good reading saved as backup, and a call ends in error exactly when Proxmox had to be asked, failed, and no backup was saved or it could not be read |
| NodeStatus.CallKeepsInv | internal/core/services/nodo_service.go:113-135 | Every call keeps the copies and the failure mark consistent with the history |
| NodeStatus.RunsAreGentle | internal/core/services/nodo_service.go:78-167 | On every run, queries are five seconds apart, except after a good one whose copy was not saved, was deleted or could not be read and after a bad one without a readable backup; once a backup is saved only a failed read lets a call end in error |
| NodeStatus.WorkingStoreAnswers | internal/core/services/nodo_service.go:78-135 | On every run in which the store works, each answer is the latest good reading and an error means there has never been one |
| NodeStatus.NodoService.ObtenerEstado | internal/core/services/nodo_service.go:78-109 | The branches give the answer and the new state of the specification |
| NodeStatus.NodoService.Refrescar | internal/core/services/nodo_service.go:113-135 | A good reading fills each key whose write works and clears the failure |
| NodeStatus.NodoService.FallaReciente | internal/core/services/nodo_service.go:160-167 | True exactly within five seconds of the last failure, if it has not been cleared |

## Left out

- Task pool: the synchronous reconciliation before the listener opens (`RecuperarYReconciliarAlArranque`) and its deletion of leftover locks, except as a lock loss in `Exclusion`; `ListarEnCurso` may return the rows in any order.
- Task pool: the resource type of an event, audit rows and the text of UPIDs.
- PoolSeguimientoClass.PoolSeguimiento.Reconciliar: is a pass that nothing interferes with; passes under interference are `TaskPoolPass`. The same holds of `Recuperar`.
- TaskPoolProgress.EveryRunningRowCanBeClosed: gives a continuation that closes the row; fair schedules are not modelled.
- Exclusion: the time that a request may wait for the lock, and the lock's expiry as a clock; a loss is a step that may come at any moment.
- CapacityRuns: follows one node; a PUT is in use at once or pending, as a choice, and pending memory that a reboot applies counts as added by outsiders; the cache's ten seconds are a step that may come at any moment; the lock is not lost during a section.
- CapacitySafety.EnlargementFitsItsReading: speaks of the size the request measured; an instance that changed since is the subject of `CapacityIncrements`.
- Reservations: JSON, and a blank reservation id, for which nothing is done; deletions of cached readings succeed.
- ReservationRelease: the announcement, with the release in it, is one step of the pool; a restart within it is not modelled.
- Alerts: the INCR and the SET NX of one reading are one step, so the evaluations of two replicas do not overlap within a reading (`AlertKey` takes the operations on an alert key in any order); failures of the store, NaN and infinite thresholds, e-mails, messages and audit.
- Simulator: `Simulador` keeps instances and tasks as values in its maps, so sharing between instance objects is not modelled there; `Instancia` and `Snapshot` are objects. A task keeps the data of its snapshot instead of the object, which is created when the task ends.
- Simulator: the parameter checks of a creation are one flag and the digest of a configuration is any function of the instance; disks, addresses, metrics, listings and the texts of UPIDs. In `SimInvariant` the immediate pass when tasks take no time is the passes that follow the request.
- SimuladorClass.Simulador.CrearInstancia: takes the outcome of the parameter checks as one flag.
- References: AES and SHA-256 are any permutation of blocks; the length check of the salt.
- Masking: `\b` is taken on ASCII word characters, as Go's regular expressions do; the editing of the `vmid` field in `reemplazarVmid`; `sanear.go`.
- Sessions: passwords, TOTP, token signatures and roles; in `Sessions` an operation is one step, and in `SessionRaces` two, its work on the row and its write to the store.
- NodeStatus.NodoService.ObtenerEstado: is one call at a time; simultaneous calls that share one query are not modelled.
- Node status: the history series; conversions to percentages and gigabytes.
- HTTP handlers, middleware other than the instance guard, exports, streams, mail, seeding and configuration parsing.
