# Verified model of the akarin kernel core

akarin is a microkernel written in Rust. This project models the parts of it whose state is hardest to keep
right, and proves what they promise over every input, every run and every reachable state:

* the per-CPU EEVDF run queue, migration between CPUs, and the arithmetic of lag and virtual time;
* the service call protocol between callers, objects and serving tasks;
* the memory bring-up: marking the boot memory map, the boot heap, the metadata sized from it, the feeding of
  page frames, and the SLUB object allocator;
* the Mach-O rebase interpreter and its ULEB128 operands;
* subtree removal and index recycling in the object registry.

Each component has the same layers. A value layer (functions on datatypes) says what every operation does. An
invariant and the theorems about runs are proved of that layer. Where the source updates state in place there is
an object layer: a class or a method with the source's loops, proved equal to the value layer, step for step.

| component | value layer | theorems | object layer |
|---|---|---|---|
| run queue | `Eevdf`, `RunQueue` | `RunQueueInvariant`, `RunQueueEffects`, `Selection`, `VirtualTime`, `SchedulerRuns`, `SchedulerTicks`, `SchedulerMigration`, `SchedulerClock`, `SchedulerSystem` | `SchedulerObjects` |
| service calls | `ServiceProtocol` | `ServiceInvariant`, `ServiceRuns`, `ServiceRequests`, `ServiceStates`, `ServiceLifecycle`, `ServiceLosses`, `ServiceWaits` | `ServiceObjects` |
| SLUB | `Slub` | `SlubInvariant`, `SlubSteps`, `SlubRuns` | `SlubObjects` |
| rebasing | `Uleb`, `Rebase` | `RebaseLaws`, `RebaseProgram` | `RebaseLinker` |
| memory map | `Arenas`, `MapSplice` | `Arenas`, `ArenaMarking`, `MapSplice`, `MapConstruction` | `ArenaMarking`, `MapSplice`, `MapConstruction` |
| boot heap | `EarlyHeap` | `EarlyRuns` | `EarlyObjects` |
| frames | `FrameFeed`, `FrameAllocator` | `FrameFeed`, `FrameAllocator` | `FrameAllocator` |
| bring-up | `Metadata` | `Metadata`, `BringUp` | `MetadataObjects`, `BringUp` |
| registry | `Registry` | `Registry`, `RegistryRuns` | `RegistryObjects` |

`dafny verify dfyconfig.toml` checks the whole project.

## What turned out to be false

Some of the properties one expects of this code do not hold of it. The model keeps the code as it is and proves
exactly when they do.

* The run-time check that every task in the eligible tree has `veligible <= vtime` is not an invariant: a task that
  departs before it became eligible turns the clock back. `EligibleClauseFails` is a six-step run from an empty
  scheduler that ends outside it. `StepBreaks` gives the exact guard, on the state before the step, for every step;
  `RunKeepsClauseIff` says that a run keeps the clause exactly when no step of it meets the guard.
* A departure conserves total lag, up to rounding, if and only if its correction does not saturate
  (`DepartureConservesLag`). `LagIsLost` is a five-step run at default weights in which it does.
* A submitted call is not always answered. If the chosen task cannot be woken, an invoker is told, but a wait drops
  the call it popped and its caller waits forever: `WaitLosesCall` is such a run. `RunLosesIff` gives the exact guard
  of the steps by which a call ends unanswered; while every wakeup succeeds there is none (`WokenRunLosesNothing`).
* The lifecycle state of a call is not final: a serving task may answer before the thread that woke it marks the call as
  running, and then a call with a published reply reads as running. `RepliedCallRuns` is such a run. `RunShowsIff` says
  that the state agrees with the reply throughout a run exactly when no step marks a call that has its reply already. The
  reply itself is final (`RunReplyIsFinal`).
* The SLUB allocator marks an empty cache slot with page address 0, so frame 0 cannot be cached. An allocation keeps
  the invariant if and only if it does not take frame 0, and otherwise leaks that frame
  (`AllocKeepsInvIffNotZero`); `FirstFrameLeaks` is a machine on which the first allocation does.
* `mark_usable` fails its assertion on a range that ends inside the first page of a zone, and `feed` never
  terminates on a range above 4 GiB when there is no normal zone. `Allocator.FeedRange` proves both as exact
  conditions; `FeedPanics` and `FeedLoops` are inputs. Bring-up never meets the second. It does meet the first:
  `FeedCompletes` says that feeding the usable ranges completes exactly when no free region of the boot heap and no
  low range ends inside the first page of a zone. `BringUpPanics` is a map of two usable arenas on which it panics
  straight from boot, once six kilobytes of tables for the frame allocator and the metadata have been carved.
* `mark_unchecked` fails its assertion exactly when some marker is inside no single arena (`MarkUnchecked`), which a
  map that covers the marker does not rule out (`MarkerAcrossArenas`).

## Model

| member | source | states |
|---|---|---|
| RunQueueInvariant.InsertOrdered | kernel/src/sched/mod.rs:64-84 | inserting into a run tree keeps it strictly ordered by (key, id) and adds exactly that task |
| RunQueueInvariant.AdmitInv | kernel/src/sched/mod.rs:505-532 | admitting a task, blocked or ready, new or already known, keeps the scheduler invariant |
| RunQueueInvariant.RemoveTaskInv | kernel/src/sched/mod.rs:490-502 | removing a task that is not ready keeps the invariant |
| RunQueueInvariant.EnqueueWakeupInv | kernel/src/sched/mod.rs:535-545 | queueing a wakeup keeps the invariant |
| RunQueueInvariant.ActivateInv | kernel/src/sched/mod.rs:640-663 | applying one wakeup keeps the invariant and never lowers the ready load |
| RunQueueInvariant.DrainInv | kernel/src/sched/mod.rs:621-634 | draining keeps the invariant and empties the inbox |
| RunQueueInvariant.PromoteInv | kernel/src/sched/mod.rs:1076-1095 | promotion keeps both trees ordered, disjoint and complete |
| RunQueueInvariant.TakeNextInv | kernel/src/sched/mod.rs:697-706 | taking the next task keeps the invariant, in particular exec_start on the current task only |
| RunQueueInvariant.RequeueInv | kernel/src/sched/mod.rs:709-729 | requeueing the current task keeps the invariant and returns that task |
| RunQueueInvariant.BlockInv | kernel/src/sched/mod.rs:733-749 | blocking the current task keeps the invariant |
| RunQueueInvariant.ExitAndRemoveInv | kernel/src/sched/mod.rs:896-905 | exiting and removing the current task keeps the invariant |
| RunQueueInvariant.AccountInv | kernel/src/sched/mod.rs:782-803 | charging run time to the current task keeps the invariant, keys of queued tasks included |
| RunQueueInvariant.OnTickInv | kernel/src/sched/mod.rs:952-975 | a timer tick keeps the invariant |
| RunQueueInvariant.BoundaryInv | kernel/src/sched/mod.rs:883-923 | every boundary action (ready, blocked, exited, cancelled) keeps the invariant |
| RunQueueInvariant.SavePreemptedInv | kernel/src/sched/mod.rs:927-949 | preemption keeps the invariant |
| RunQueueInvariant.ChooseMigratableFound | kernel/src/sched/mod.rs:594-618 | a migration candidate is found exactly when a queued task qualifies, and a cold one is preferred |
| RunQueueInvariant.TakeMigratableInv | kernel/src/sched/mod.rs:568-592 | taking a task away for migration keeps the invariant |
| RunQueueEffects.AdmitDoes | kernel/src/sched/mod.rs:505-532 | admission adds exactly this task, dated by this CPU's clock, and queues it exactly when it is ready or has something to run; a preempted task stays preempted, any other is queued as asynchronous, and its weight counts once |
| RunQueueEffects.DrainWakes | kernel/src/sched/mod.rs:621-663 | draining queues exactly the sleeping tasks of the inbox, each ready for the reason it had recorded and free to migrate if it has run before, clears every mark there, and leaves every other task as it was |
| RunQueueEffects.DrainCounts | kernel/src/sched/mod.rs:621-634 | its count is the number of tasks that slept and were woken |
| RunQueueEffects.WakeupReaches | kernel/src/sched/mod.rs:535-545 | a posted wakeup has the task ready after the next drain, except exactly when it is asleep, already marked and in no local inbox |
| RunQueueEffects.WakeupOnce | kernel/src/sched/mod.rs:535-545 | a posted wakeup marks the task and queues it last, and until the mark is cleared another one changes nothing |
| RunQueueEffects.TakeNextDoes | kernel/src/sched/mod.rs:697-706 | the task taken becomes current with a fresh stamp, and no other task changes |
| RunQueueEffects.RequeueDoes | kernel/src/sched/mod.rs:709-729 | the current task ends queued, dated now, ready for the given reason, with its clock stopped; the clock and the total weight stay |
| RunQueueEffects.TerminalStaysOut | kernel/src/sched/mod.rs:709-715 | a current task with a terminal reason leaves the CPU, is named and is not queued again |
| RunQueueEffects.LeaveDoes | kernel/src/sched/mod.rs:733-779 | the current task ends blocked with its clock stopped, with its terminal reason if it exits, nothing else of it changed, and no queue changes |
| RunQueueEffects.AccountSinceDoes | kernel/src/sched/mod.rs:782-803 | charging happens exactly when the time is past the stamp; it moves the clock by the time over the total weight, the task's service by the time over its own weight, adds the time to what it has run since it was taken, stamps it and dates it anew |
| RunQueueEffects.BoundaryDoes | kernel/src/sched/mod.rs:883-923 | an exited or cancelled task is reaped with its reason, a blocked one sleeps, a yielding one is queued for its recorded reason and named as migratable; where and when it stopped is on record |
| RunQueueEffects.SavePreemptedDoes | kernel/src/sched/mod.rs:927-949 | the preempted task is queued as preempted, where and when it stopped is on record, and no other task changes |
| Selection.TreesSorted | kernel/src/sched/mod.rs:64-84 | in every reachable state the eligible tree is sorted by deadline and the ineligible one by eligibility time, and by id among equals |
| Selection.PromoteSplits | kernel/src/sched/mod.rs:1076-1095 | after promotion the ineligible tree holds only tasks with veligible > vtime, and no task is lost |
| Selection.JumpSplits | kernel/src/sched/mod.rs:675-687 | when nothing is eligible the clock jumps exactly to the earliest eligibility time |
| Selection.PickNextCorrect | kernel/src/sched/mod.rs:666-694 | a task is picked exactly when one is queued, and no other queued task whose time has come has a smaller (deadline, id) |
| Selection.ShouldPreemptCorrect | kernel/src/sched/mod.rs:806-823 | preemption is asked for exactly when some task in line has an earlier deadline than the current one or the current one has used up its slice; with a truthful eligible tree, exactly when a queued task outranks it; no task changes |
| VirtualTime.CorrectionCancels | kernel/src/sched/mod.rs:112-130 | the clock correction offsets the departing lag, up to rounding, exactly when it does not saturate |
| VirtualTime.DepartureConservesLag | kernel/src/sched/mod.rs:112-136 | total lag after a departure equals total lag before, within the remaining weight, exactly when nothing saturates |
| VirtualTime.BlockingConservesLag | kernel/src/sched/mod.rs:733-779 | blocking or exiting conserves lag, and the later removal of the task changes it no more |
| VirtualTime.MigrationConservesLag | kernel/src/sched/mod.rs:568-592 | migration removes exactly one task and conserves the lag of the others |
| VirtualTime.DeadlineIsOneSliceAway | kernel/src/sched/eevdf.rs:32-62 | in every reachable state a task's eligibility is not before its service and its deadline is one slice at its weight later, exactly unless the sum overflows |
| VirtualTime.DepartureTurnsBack | kernel/src/sched/mod.rs:120-129 | exactly which departures lower the clock |
| VirtualTime.AccountingIsFair | kernel/src/sched/mod.rs:782-803 | one charge moves weight times clock and weighted service apart by less than the total weight |
| SchedulerRuns.StepInv | kernel/src/sched/mod.rs:138-330 | every scheduler operation keeps the invariant that debug_verify samples |
| SchedulerRuns.RunKeepsInv | kernel/src/sched/mod.rs:138-330 | every state of every run from a new scheduler satisfies it |
| SchedulerRuns.StepAdvances | kernel/src/sched/mod.rs:112-130 | no operation lowers the clock except the departure of a task that is not yet eligible |
| SchedulerRuns.RunKeepsClockAhead | kernel/src/sched/mod.rs:170-179 | on every run without such a departure the clock never falls and every task in the eligible tree is eligible |
| SchedulerTicks.TickDoes | kernel/src/sched/mod.rs:952-975 | a tick wakes exactly the sleeping tasks of the inbox, then charges the task on the CPU at the weight that includes them, and leaves every other task as it was |
| SchedulerTicks.TickAnswers | kernel/src/sched/mod.rs:952-975 | a tick asks for a switch exactly when nothing runs and it woke a task, or when something runs, time was charged or a task woken, and some task then in line beats the running one |
| SchedulerTicks.TakenThenCharged | kernel/src/sched/mod.rs:697-706 | from the moment a task is taken, after any charges, it carries the latest moment and has been charged exactly the time since |
| SchedulerTicks.RunsFor | kernel/src/sched/mod.rs:782-803 | the same over any run: as long as a task stays on the CPU, it carries the latest tick and has been charged from its being taken to that tick |
| SchedulerMigration.ChoiceGoesFirst | kernel/src/sched/mod.rs:594-618 | the task offered is the first of the cold ones, eligible before ineligible, in tree order; only a relaxed policy with no cold one offers the first hot one; none is offered exactly when none qualifies |
| SchedulerMigration.MigrationDoes | kernel/src/sched/mod.rs:568-592 | the task chosen leaves with its clock stopped and its weight; the rest of the queue, the current task and the inbox stay |
| SchedulerMigration.ArrivalStays | kernel/src/sched/balance/mod.rs:62-67 | a task that has just arrived from another CPU is not offered again, at any time and under any policy |
| SchedulerMigration.RemoveDoes | kernel/src/sched/mod.rs:490-502 | the task comes back unmarked, and one entry of the inbox goes exactly if it was marked |
| SchedulerMigration.PreemptedStaysHot | kernel/src/sched/task.rs:435-444 | a task preempted here is not offered before the threshold has passed unless the policy relaxes, and from then on may be, exactly when it is ready and allowed to migrate |
| SchedulerClock.DeparturePasses | kernel/src/sched/mod.rs:112-130 | a departure leaves the clock behind a past moment exactly when the departing lead, times its weight, covers the way back times the remaining weight |
| SchedulerClock.DepartureBreaks | kernel/src/sched/mod.rs:112-130 | a departure breaks the eligible clause exactly when it overtakes a task of the eligible tree |
| SchedulerClock.LeavingBreaks | kernel/src/sched/mod.rs:733-779 | blocking or exiting breaks the eligible clause exactly when the departure overtakes a task of the eligible tree |
| SchedulerClock.MigratingBreaks | kernel/src/sched/mod.rs:568-592 | migration breaks it exactly then |
| SchedulerClock.StepBreaks | kernel/src/sched/mod.rs:170-179 | for every step, the guard on the state before it under which it breaks the clause, and no other step does |
| SchedulerClock.RunKeepsClauseIff | kernel/src/sched/mod.rs:170-179 | a run keeps the clause in all its states exactly when none of its steps meets the guard |
| SchedulerClock.EligibleClauseFails | kernel/src/sched/mod.rs:170-179 | a concrete run that falsifies the eligible clause, with the clock going from 500 to 250 |
| SchedulerClock.LagIsLost | kernel/src/sched/mod.rs:112-130 | a concrete run, five steps from boot, in which a departure saturates the clock at 0 and does not conserve lag |
| SchedulerRuns.ActIsFair | kernel/src/sched/eevdf.rs:38-48 | one charge or switch moves the balance of clock and service by less than the total weight |
| SchedulerRuns.RunIsFair | kernel/src/sched/eevdf.rs:38-48 | over any n charges and any switches between them the drift is at most n times (weight - 1) |
| SchedulerSystem.TakeMigratableEffect | kernel/src/sched/mod.rs:568-592 | what leaves is one ready, queued task with its weight, and exactly its load leaves the total |
| SchedulerSystem.AdmitReadyEffect | kernel/src/sched/mod.rs:505-532 | an arriving ready task is queued with its weight and service, and exactly its load joins the total |
| SchedulerSystem.MigrationMoves | kernel/src/sched/balance/mod.rs:62-67 | migration keeps both CPUs' invariants, keeps the task in exactly one table and ready, and conserves the sum of total weights |
| SchedulerSystem.MigrationKeepsWeight | kernel/src/sched/balance/mod.rs:62-67 | sending a task off and taking it in each leave the sum of all CPUs' weights and the loads in transit unchanged |
| SchedulerSystem.StepKeepsSystem | kernel/src/sched/balance/mod.rs:62-67 | local steps and migrations keep every CPU's invariant, and no task is in two tables or in a table and in transit |
| SchedulerSystem.SystemRunKeepsInv | kernel/src/sched/balance/mod.rs:62-67 | this holds in every state of every run of the whole machine |
| SchedulerObjects.Scheduler.AdjustVtimeForDeparture | kernel/src/sched/mod.rs:112-130 | the method computes the departure clock of the value layer |
| SchedulerObjects.Scheduler.TransitionTaskState | kernel/src/sched/mod.rs:423-436 | weight and clock follow the state change of the value layer |
| SchedulerObjects.Scheduler.InsertRunnable | kernel/src/sched/mod.rs:995-1020 | the task gets its keys and enters the tree the value layer puts it in |
| SchedulerObjects.Scheduler.AdmitTask | kernel/src/sched/mod.rs:505-532 | refines admission; the table gains exactly this cell |
| SchedulerObjects.Scheduler.RemoveTask | kernel/src/sched/mod.rs:490-502 | refines removal, detaches the task from the inbox and returns its cell |
| SchedulerObjects.Scheduler.EnqueueWakeup | kernel/src/sched/mod.rs:535-545 | refines queueing a wakeup, once per mark |
| SchedulerObjects.Scheduler.ActivateWakeup | kernel/src/sched/mod.rs:640-663 | refines applying a wakeup and reports whether it woke the task |
| SchedulerObjects.Scheduler.DrainWakeups | kernel/src/sched/mod.rs:621-634 | the loop equals the recursive drain and counts the tasks woken |
| SchedulerObjects.Scheduler.PromoteEligible | kernel/src/sched/mod.rs:1076-1095 | the loop equals the recursive promotion |
| SchedulerObjects.Scheduler.PickNext | kernel/src/sched/mod.rs:666-694 | refines the pick, clock jump included |
| SchedulerObjects.Scheduler.TakeNext | kernel/src/sched/mod.rs:697-706 | refines the pick and stamps the start of execution |
| SchedulerObjects.Scheduler.RequeueCurrentWith | kernel/src/sched/mod.rs:709-729 | refines requeueing the current task |
| SchedulerObjects.Scheduler.LeaveCurrentWith | kernel/src/sched/mod.rs:733-779 | refines blocking and exiting the current task |
| SchedulerObjects.Scheduler.AccountCurrentRuntime | kernel/src/sched/mod.rs:782-803 | refines charging run time |
| SchedulerObjects.Scheduler.AccountRuntimeSince | kernel/src/sched/mod.rs:866-879 | charges the time since the stamp, only when it is positive |
| SchedulerObjects.Scheduler.ShouldPreemptCurrent | kernel/src/sched/mod.rs:806-823 | refines the preemption test |
| SchedulerObjects.Scheduler.OnTick | kernel/src/sched/mod.rs:952-975 | refines the tick |
| SchedulerObjects.Scheduler.SavePreemptedCurrent | kernel/src/sched/mod.rs:927-949 | refines saving a preempted task |
| SchedulerObjects.Scheduler.FinalizeCurrentBoundary | kernel/src/sched/mod.rs:883-923 | refines the boundary actions, with the reaped and the migratable task |
| SchedulerObjects.Scheduler.FindMigratable | kernel/src/sched/mod.rs:1022-1074 | the scan returns the first task of the tree that may migrate |
| SchedulerObjects.Scheduler.ChooseMigratableTask | kernel/src/sched/mod.rs:594-618 | the four scans in order equal the value layer's choice |
| SchedulerObjects.Scheduler.TakeMigratable | kernel/src/sched/mod.rs:568-592 | refines taking a task away; the inbox is not touched |
| ServiceInvariant.QueueInv | kernel/src/service/object.rs:118-148 | queueing a call where no one waits keeps the protocol invariant |
| ServiceInvariant.MatchWaiterInv | kernel/src/service/object.rs:118-148 | popping a waiter for a call keeps it |
| ServiceInvariant.ParkTaskInv | kernel/src/service/object.rs:84-116 | parking a task where nothing is pending keeps it |
| ServiceInvariant.MatchCallInv | kernel/src/service/object.rs:84-116 | popping a pending call for a task keeps it |
| ServiceInvariant.DeliveryAccepted | kernel/src/sched/task.rs:1059-1076 | a task chosen for delivery is still waiting, so activation never reports InvalidState |
| ServiceInvariant.ArmInv | kernel/src/sched/task.rs:1059-1076 | activation keeps the invariant |
| ServiceInvariant.RespondInv | kernel/src/sched/task.rs:1083-1094 | taking the active call to answer it keeps the invariant |
| ServiceInvariant.TakeBackInv | kernel/src/sched/task.rs:1096-1106 | taking a call back from the task that serves it keeps the invariant |
| ServiceInvariant.DropInv | kernel/src/sched/task.rs:1149-1154 | dropping a task keeps the invariant |
| ServiceInvariant.PublishInv | kernel/src/service/dispatcher.rs:91-114 | publishing a reply keeps the invariant |
| ServiceRuns.RollbackInv | kernel/src/service/dispatcher.rs:204-208 | undoing a delivery whose task could not be woken keeps the invariant, whatever the task did meanwhile |
| ServiceRuns.StepInv | kernel/src/service/dispatcher.rs:184-240 | every locked section of the protocol keeps the invariant |
| ServiceRuns.RunKeepsInv | kernel/src/service/dispatcher.rs:184-240 | every state of every run, in any interleaving of sections, satisfies it |
| ServiceRuns.ExactlyOnePlace | kernel/src/service/dispatcher.rs:184-240 | a submitted call is in exactly one place: in someone's hand, pending at one object once, served by one task, answered, or taken back unanswered |
| ServiceRuns.InflightBijection | kernel/src/service/dispatcher.rs:184-240 | whenever no delivery, withdrawal, reply or cancellation is under way, the in-flight table and the tasks' active calls are in bijection |
| ServiceRuns.NeverLost | kernel/src/service/object.rs:84-148 | delivery is always accepted, a finished call is still registered unless its task could not be woken, and only then does a call end unanswered |
| ServiceLosses.StepLoses | kernel/src/service/dispatcher.rs:190-228 | for every step, the guard on the state before it under which a call ends unanswered: it is taken back from the task that serves it, or finished after its task could not be woken; such an end is final |
| ServiceLosses.RunLosesIff | kernel/src/service/dispatcher.rs:190-228 | over any run a call ends unanswered exactly by such a step |
| ServiceLosses.WokenRunLosesNothing | kernel/src/service/dispatcher.rs:202-208 | while every wakeup succeeds no call ends unanswered |
| ServiceLosses.WaitLosesCall | kernel/src/service/object.rs:84-116 | a run, ten sections from boot, in which a wait drops a pending call and its caller is never told |
| ServiceWaits.NoLostWakeup | kernel/src/sched/task.rs:1017-1043 | in every run a parked task that sleeps with no event to wake it has not been given a call; the wait returns with success only once a call was delivered, and with failure only once it was taken back |
| ServiceWaits.SoonReturns | kernel/src/sched/task.rs:1017-1043 | once a call has come the wait returns in at most two moves of its own, with success unless the call was taken back |
| ServiceWaits.OthersMove | kernel/src/sched/task.rs:1059-1106 | every locked section of every other thread leaves the waiting task's state alone, arms it, or rolls it back |
| ServiceRuns.ReplyFromServer | kernel/src/service/dispatcher.rs:214-228 | a published reply is the answer of the one task to which this very request was delivered |
| ServiceRequests.RequestArrives | kernel/src/service/object.rs:66-82 | over any run a call holds the very request it was invoked with, and whatever is delivered of it is that request, at the entry point of the object it was invoked on |
| ServiceRequests.ObjectStays | kernel/src/service/object.rs:41-62 | over any run an object keeps the kind and the entry point it was made with |
| ServiceRequests.ClosedStays | kernel/src/service/object.rs:84-124 | from its closing on an object takes in no call and no waiter and hands out nothing |
| ServiceRequests.PendingAtClose | kernel/src/service/object.rs:84-91 | a call that is pending when its object closes stays pending and is never answered |
| ServiceStates.RunKeepsDuties | kernel/src/sched/task.rs:1001-1106 | in every state of every run a task has a role exactly while it waits or serves, holds no delivery while it waits, and while it serves holds only the delivery of the call it serves |
| ServiceLifecycle.StepElsewhere | kernel/src/service/dispatcher.rs:184-240 | every locked section leaves every call alone but the one it is about |
| ServiceLifecycle.ToldIffNotQueued | kernel/src/service/dispatcher.rs:190-212 | over any run, when a task could not be woken, the caller is told exactly if its call was never queued, and a call that was marked as running is not withdrawn |
| ServiceLifecycle.StepLives | kernel/src/service/dispatcher.rs:91-114 | a call's state and reply change in two sections only, to running and to the terminal state of the reply published |
| ServiceLifecycle.RunShowsIff | kernel/src/service/dispatcher.rs:91-114 | over any run a call's state agrees with its reply exactly when it is never marked as running after the reply was published |
| ServiceLifecycle.RepliedCallRuns | kernel/src/service/dispatcher.rs:202-212 | a run, twelve sections from boot, that ends with a replied call marked as running |
| ServiceRuns.StepExtends | kernel/src/service/dispatcher.rs:91-114 | requests and replies are final and every record only grows |
| ServiceRuns.RunReplyIsFinal | kernel/src/service/dispatcher.rs:91-114 | over any run a call gets at most one reply |
| ServiceRuns.AnswerReachesCall | kernel/src/service/dispatcher.rs:214-228 | a serving task's answer is published to exactly its call; it goes unheard exactly when the call was withdrawn |
| ServiceRuns.DroppedServerCancels | kernel/src/service/dispatcher.rs:230-240 | a dropped serving task cancels exactly its call, with ServiceFaulted, unless the call was withdrawn |
| ServiceRuns.ParkedOnce | kernel/src/service/object.rs:84-116 | a task is parked in at most one queue, once, and only while it waits with no active call |
| ServiceRuns.FirstComeFirstServed | kernel/src/service/object.rs:118-148 | no object holds both waiters and pending calls, and calls are handed out in the order they were queued |
| ServiceObjects.ServiceKernel.BeginServiceWait | kernel/src/sched/task.rs:1001-1015 | a wait begins exactly when the task neither waits, nor serves, nor holds a delivery |
| ServiceObjects.ServiceKernel.PopCallOrPark | kernel/src/service/object.rs:84-116 | the locked section pops the oldest call or parks the task |
| ServiceObjects.ServiceKernel.PopWaiterOrQueue | kernel/src/service/object.rs:118-148 | the locked section pops the oldest waiter or queues the call |
| ServiceObjects.ServiceKernel.ActivateServiceCall | kernel/src/sched/task.rs:1059-1076 | refines activation, refused exactly when the task does not wait |
| ServiceObjects.ServiceKernel.CancelActiveServiceCall | kernel/src/sched/task.rs:1096-1106 | refines the roll-back, which acts only if the task still serves that call |
| ServiceObjects.ServiceKernel.TakeActiveServiceCall | kernel/src/sched/task.rs:1083-1094 | refines taking the active call |
| ServiceObjects.ServiceKernel.DeliverToWaiter | kernel/src/service/dispatcher.rs:190-212 | registers, activates, wakes and marks in that order; the task then serves exactly this call, or does not accept it, or is idle again and the call withdrawn, exactly by whether it waits and wakes |
| ServiceObjects.ServiceKernel.QueueOrDeliverCall | kernel/src/service/object.rs:118-148 | the retry loop ends with the call handed to the first waiter that accepts, queued last, refused by a closed object, or withdrawn from a waiter that cannot be woken, of which its caller is told |
| ServiceObjects.ServiceKernel.Wait | kernel/src/service/object.rs:84-116 | the task fails, parks last and marked as waiting for that kind, serves the oldest pending call, or drops it because it cannot be woken, exactly by what it finds |
| ServiceObjects.ServiceKernel.CompleteCurrentCall | kernel/src/service/dispatcher.rs:214-228 | succeeds exactly when the task serves a registered call, which then holds this reply and is no longer in flight |
| Slub.ClassIndex | kernel/src/memory/slab.rs:104-107 | the smallest size class that covers size and alignment, and none exactly above 2048 |
| SlubInvariant.ThreadBuilds | kernel/src/memory/slab.rs:250-261 | threading a page builds the list of all its objects in address order |
| SlubSteps.NewPageInv | kernel/src/memory/slab.rs:109-161 | taking a fresh page other than frame 0 keeps the page invariant |
| SlubSteps.CachedPageHasObject | kernel/src/memory/slab.rs:109-161 | a cached page has a free object and sits in exactly one slot |
| SlubSteps.PopInv | kernel/src/memory/slab.rs:109-161 | handing out an object keeps the invariant, whether or not the page is then full |
| SlubSteps.AllocInv | kernel/src/memory/slab.rs:109-161 | an allocation keeps the invariant |
| SlubSteps.AllocPromise | kernel/src/memory/slab.rs:109-161 | it fails exactly when no page is cached and no frame is left; otherwise the object was not live, has its class's shape and becomes live |
| SlubSteps.DeallocInv | kernel/src/memory/slab.rs:163-192 | returning a live object keeps the invariant |
| SlubSteps.DeallocPromise | kernel/src/memory/slab.rs:163-192 | exactly this object stops being live, only its own word is written, and the frame goes back exactly on the last reference |
| SlubSteps.LastFreedFirst | kernel/src/memory/slab.rs:163-192 | an object returned to the cached page is the next one handed out |
| SlubSteps.ReleaseInv | kernel/src/memory/slab.rs:194-212 | releasing a cache empties its slots, keeps every live object and the invariant |
| SlubRuns.WriteInv | kernel/src/memory/slab.rs:232-248 | a user changing any word that shares a byte with a live object disturbs no free list |
| SlubRuns.WriteMisses | kernel/src/memory/slab.rs:232-248 | no byte of a live object is a byte of an eight-byte free-list link |
| SlubRuns.StepInv | kernel/src/memory/slab.rs:109-212 | every operation keeps the invariant |
| SlubRuns.RunKeepsInv | kernel/src/memory/slab.rs:109-212 | every state of every run satisfies it: free lists acyclic, in the page, aligned, apart from live objects; refcount = live + cached |
| SlubRuns.SlotsPartition | kernel/src/memory/slab.rs:250-261 | free and live objects partition the slots of a page |
| SlubRuns.FreePlusLive | kernel/src/memory/slab.rs:250-261 | free + live = 4096 / size on every page |
| SlubRuns.FrameReturned | kernel/src/memory/slab.rs:263-286 | a page's frame is returned exactly when it has no live object and no cache reference |
| SlubRuns.CountedIffUsed | kernel/src/memory/slab.rs:263-286 | in every run a page's reference count is positive exactly while the allocator owns it, and the metadata of every other page is empty |
| SlubRuns.AllocKeepsInvIffNotZero | kernel/src/memory/slab.rs:109-161 | an allocation keeps the invariant exactly when it does not take frame 0, which it would leak |
| SlubRuns.FrameZeroLeaks | kernel/src/memory/slab.rs:194-204 | every allocation that takes frame 0 leaks it |
| SlubRuns.FirstFrameLeaks | kernel/src/memory/slab.rs:194-204 | a booted machine whose first allocation leaks its only frame |
| SlubObjects.SlubRuntime.InitializePage | kernel/src/memory/slab.rs:250-261 | the loop threads the page as the value layer does |
| SlubObjects.SlubRuntime.ReleaseCacheReference | kernel/src/memory/slab.rs:263-286 | drops one reference and frees the page at zero |
| SlubObjects.SlubRuntime.AllocObject | kernel/src/memory/slab.rs:109-161 | the retry loop refines allocation |
| SlubObjects.SlubRuntime.DeallocObject | kernel/src/memory/slab.rs:163-192 | refines deallocation |
| SlubObjects.SlubRuntime.ReleaseCache | kernel/src/memory/slab.rs:194-212 | the loop over slots refines release |
| Uleb.DecodeInvertsEncode | library/dyld/src/dyld.rs:56-74 | decoding the standard encoding of any 64-bit value, anywhere in the data, gives the value and its end |
| Uleb.ReadNeedsTenBytes | library/dyld/src/dyld.rs:56-74 | a terminated operand decodes exactly when its last group starts below bit 64, and panics otherwise |
| Uleb.JoinIsAdd | library/dyld/src/dyld.rs:67-67 | the accumulator lies below the place of the next group, so joining the group by or adds it, and the accumulator stays below the place after it |
| Uleb.OrBits | library/dyld/src/dyld.rs:67-67 | the or of two numbers has exactly the bits of either |
| Rebase.DecodeAdvances | library/dyld/src/dyld.rs:185-274 | every opcode that reading continues after consumes input |
| Rebase.RepeatClosedForm | library/dyld/src/dyld.rs:224-269 | the k-th fixup of a repetition is k strides on, and the repetition completes exactly when its end fits in the word |
| Rebase.LittleRoundTrip | library/dyld/src/dyld.rs:99-108 | writing a number in little-endian bytes and reading it back |
| RebaseLaws.OneFixup | library/dyld/src/dyld.rs:76-136 | a fixup succeeds exactly when its location is in a segment and mapped, its type known and a pointer stays in the word; it then slides that little-endian value and changes no other byte |
| RebaseLaws.FixupFails | library/dyld/src/dyld.rs:76-136 | which error a fixup gives: for its place, then its type, then the memory there, then the sum |
| RebaseLaws.ValueIsLittle | library/dyld/src/dyld.rs:99-108 | the values rebased are the little-endian numbers of four and of eight bytes |
| RebaseLaws.LastCommandWins | library/dyld/src/dyld.rs:143-168 | of several commands the last gives the stream, and binding information in any of them is refused |
| RebaseLaws.LinkingNothing | library/dyld/src/dyld.rs:143-172 | without rebase information linking succeeds and touches nothing; with binding information it fails and touches nothing |
| RebaseLaws.NothingElseChanges | library/dyld/src/dyld.rs:76-136 | whatever the list, only bytes it covers change, also when it fails half way |
| RebaseLaws.SucceedTogether | library/dyld/src/dyld.rs:76-136 | fixups that do not overlap succeed together exactly when each would succeed alone |
| RebaseLaws.EachSlidesOnce | library/dyld/src/dyld.rs:76-136 | each listed pointer ends as old + slide and each 32-bit value as old + slide mod 2^32 |
| RebaseLaws.LinkedImage | library/dyld/src/dyld.rs:179-276 | linking a whole image whose fixups do not overlap: it succeeds exactly when the stream is well formed and every location can be rebased; then each listed value has slid once and no other byte has changed |
| RebaseProgram.DecodeMeans | library/dyld/src/dyld.rs:186-274 | for every opcode, its bytes, wherever they stand, ask for exactly the locations its operands say (how many, how far apart) and leave the position they say |
| RebaseProgram.StreamMeans | library/dyld/src/dyld.rs:185-274 | the bytes of any sequence of instructions ask for the locations of all of them in order, and reading goes on behind them |
| RebaseProgram.StreamEnds | library/dyld/src/dyld.rs:185-274 | where reading ends: at the end of the stream, at a done opcode (an error if more than 16 bytes remain), at an unknown opcode, past the image |
| RebaseProgram.OperandCut | library/dyld/src/dyld.rs:56-74 | an operand cut off by the end of the image is an error, and the rebase before an address operand has still been asked for |
| RebaseProgram.LinkedProgram | library/dyld/src/dyld.rs:138-276 | linking an image that holds the bytes of a program of instructions: when it succeeds, and that then exactly the locations the program asks for have slid, once each |
| RebaseLinker.ExecuteThenRest | library/dyld/src/dyld.rs:185-274 | performing an opcode and then the rest is performing the whole listing |
| RebaseLinker.Linker.ReadUleb | library/dyld/src/dyld.rs:56-74 | the loop refines operand decoding |
| RebaseLinker.Linker.ApplyRebase | library/dyld/src/dyld.rs:76-136 | refines one fixup, error by error |
| RebaseLinker.Linker.RebaseTimes | library/dyld/src/dyld.rs:224-269 | the counting loops refine a repetition, partial effects included |
| RebaseLinker.Linker.Step | library/dyld/src/dyld.rs:186-274 | refines one opcode |
| RebaseLinker.Linker.FindRebaseRange | library/dyld/src/dyld.rs:143-172 | the last command gives the stream, and any binding information is refused |
| RebaseLinker.Linker.Link | library/dyld/src/dyld.rs:138-276 | the one-pass interpreter leaves the memory, and gives the error, that listing all fixups first and then applying them would |
| Arenas.OneMapPerMeaning | bootloader/src/memory.rs:90-91 | two sorted, disjoint, fully merged maps that say the same of every address are equal |
| ArenaMarking.PushMeans | bootloader/src/memory.rs:70-78 | pushing with merging lays the new arena over what the map said |
| ArenaMarking.SplitMeans | bootloader/src/memory.rs:95-126 | splitting around a marker gives the marker's kind inside and the old kinds outside |
| ArenaMarking.TestIsInside | bootloader/src/memory.rs:94-95 | the loop's test on the current piece is whether the marker lies inside the arena at hand |
| ArenaMarking.MarkUnchecked | bootloader/src/memory.rs:67-149 | all markers are used exactly when each lies inside one arena; the result is sorted, disjoint, fully merged, and each address has its marker's kind or its old one |
| ArenaMarking.MarkerAcrossArenas | bootloader/src/memory.rs:143-146 | a map and a marker it covers on which the assertion fires |
| MapSplice.MemoryMapIter.Next | bootloader/protocol/src/memory.rs:100-116 | yields the arenas before the first end-of-map entry, in order, then nothing |
| MapSplice.SpliceAt | bootloader/src/memory.rs:241-269 | in-place split and rotation put the pieces in the arena's place and drop as many entries from the end |
| MapSplice.SpliceOwnPages | bootloader/src/memory.rs:211-271 | the array ends as the spliced map followed by dummies only, so no arena is lost |
| MapSplice.SplicedFits | bootloader/src/memory.rs:262-267 | the entries overwritten are dummies |
| MapSplice.KernelReads | bootloader/protocol/src/memory.rs:100-116 | the kernel's iterator yields the old arenas with one replaced by its one to three pieces |
| MapSplice.SplicedMeans | bootloader/src/memory.rs:237-271 | the spliced map is sorted and disjoint, and only the array's own pages change kind |
| MapConstruction.SortedMeans | bootloader/src/memory.rs:55-60 | sorting a map of disjoint arenas does not change what it says of any address |
| MapConstruction.Mark | bootloader/src/memory.rs:55-60 | marking a map with markers, both in any order: all markers are used exactly when each lies inside one arena, and each address has its marker's kind or its old one |
| MapConstruction.OneKindOneArena | bootloader/src/memory.rs:237-240 | in a fully merged map pages of one kind lie inside one arena |
| MapConstruction.InsideIffOneKind | bootloader/src/memory.rs:237-240 | so the array's pages are found exactly when they are of one kind |
| MapConstruction.OwnPagesAre | bootloader/src/memory.rs:228-235 | the array's own pages start with it and end with the page of its last byte |
| MapConstruction.ConstructMemoryMap | bootloader/src/memory.rs:191-276 | from the firmware's map to what the kernel reads: the assertion fires exactly when a marker is inside no arena; otherwise each address has its marker's kind or its old one, and the array's own pages are marked exactly when they are of one kind |
| EarlyHeap.PlaceIsHighest | kernel/src/memory/early.rs:117-134 | the address tried in a region is the highest aligned one, and is inside exactly when any is |
| EarlyHeap.TrimKeepsMost | kernel/src/memory/early.rs:80-101 | nothing is kept of a donated range exactly when it holds no aligned region above 64 KiB with room for a header; otherwise every such region is inside the one kept |
| EarlyHeap.TrimGains | kernel/src/memory/early.rs:80-101 | of the bytes above 64 KiB less than 8 are lost to alignment, or less than 24 when the range is too small to keep, and none of an aligned range that is large enough |
| EarlyHeap.AllocFirstFit | kernel/src/memory/early.rs:108-161 | allocation fails exactly when no free region can hold an aligned block; otherwise it takes the highest place in the highest region that can |
| EarlyHeap.AllocCosts | kernel/src/memory/early.rs:134-154 | an allocation costs its size, at most one alignment less one of padding and one header less one |
| EarlyRuns.TrimInside | kernel/src/memory/early.rs:80-101 | what is kept of a donated range is inside it, above low memory, aligned and large enough |
| EarlyRuns.InsertKeeps | kernel/src/memory/early.rs:186-202 | inserting keeps the list descending, disjoint and well sized, and adds exactly that region |
| EarlyRuns.AddInv | kernel/src/memory/early.rs:80-106 | donating memory that is neither free nor live keeps the heap invariant |
| EarlyRuns.TakeKeeps | kernel/src/memory/early.rs:134-154 | the block taken is apart from all that stays free, and the list stays well formed |
| EarlyRuns.TakeInv | kernel/src/memory/early.rs:108-161 | allocating keeps the heap invariant |
| EarlyRuns.GiveInv | kernel/src/memory/heap.rs:350-356 | handing a live block back keeps the heap invariant |
| EarlyRuns.GiveConserves | kernel/src/memory/heap.rs:350-356 | a block handed back is free again byte for byte, unless it is too small for a header |
| EarlyRuns.RunKeepsInv | kernel/src/memory/early.rs:80-161 | every run of donations, allocations and blocks handed back keeps it |
| EarlyRuns.LiveBlocksAreSafe | kernel/src/memory/early.rs:108-161 | in every reachable state live blocks are aligned, inside donated memory, and disjoint from each other and from free memory |
| EarlyRuns.DonationsRun | kernel/src/memory/early.rs:69-78 | donating the usable arenas of a tidy map to an empty heap is a run of it, and everything donated is usable |
| EarlyRuns.DonationsFree | kernel/src/memory/early.rs:69-78 | after boot every region of a usable arena that the heap could use is free |
| EarlyRuns.DonationsGain | kernel/src/memory/early.rs:69-78 | what is free after boot is what the usable arenas hold above 64 KiB, but for less than 24 bytes an arena, and all of it if they are aligned and not too small |
| EarlyRuns.AfterBoot | kernel/src/memory/early.rs:69-78 | whatever is taken and handed back after that, the heap is sound and all of it usable |
| EarlyRuns.AddGains | kernel/src/memory/early.rs:80-106 | a donation adds exactly the bytes kept of it |
| EarlyRuns.RunConserves | kernel/src/memory/early.rs:80-161 | over any run no byte is invented, and none is lost beyond padding and headers around blocks handed out and blocks too small to hand back |
| EarlyObjects.EarlyAllocator.InsertNode | kernel/src/memory/early.rs:186-202 | the pointer walk links the header where the list layer inserts the region |
| EarlyObjects.EarlyAllocator.AddRegion | kernel/src/memory/early.rs:80-106 | refines donation through headers in free memory |
| EarlyObjects.EarlyAllocator.InitFromMap | kernel/src/memory/early.rs:69-78 | the loop over the map refines those donations |
| EarlyObjects.EarlyAllocator.Alloc | kernel/src/memory/early.rs:108-161 | the walk refines allocation, result and list, through headers in free memory |
| FrameFeed.OrderIsLargest | kernel/src/memory/frame.rs:243-248 | a block is aligned to its order, fits, obeys the limit, and could not be larger |
| FrameFeed.BlocksTile | kernel/src/memory/frame.rs:240-263 | the blocks cover every frame of the range exactly once and no other |
| FrameFeed.BlocksWellPlaced | kernel/src/memory/frame.rs:240-263 | every block is inside the range, aligned within its zone and within the order limit |
| FrameFeed.FramesAreWhole | kernel/src/memory/frame.rs:226-241 | the frames marked are exactly those whose whole page is in the range |
| FrameAllocator.PutOncePerRange | kernel/src/memory/frame.rs:309-347 | feeding puts a frame once for every range that holds its whole page, in every zone |
| FrameAllocator.DisjointPutOnce | kernel/src/memory/frame.rs:309-347 | ranges that do not overlap put no frame twice and miss none |
| FrameAllocator.TotalIsFramesPut | kernel/src/memory/frame.rs:265-266 | a zone's frame count is the number of frames put into it |
| FrameAllocator.WithinCapacity | kernel/src/memory/frame.rs:52-60 | ranges within the machine's memory put only frames the zone was sized for |
| FrameAllocator.CapacityIsExact | kernel/src/memory/frame.rs:52-60 | a zone is sized for exactly the frames that begin below the highest address and end inside the zone |
| FrameAllocator.AlignedRangesGoThrough | kernel/src/memory/frame.rs:309-347 | page-aligned, managed ranges are always fed to the end |
| FrameAllocator.AllFedIff | kernel/src/memory/frame.rs:329-346 | a list of ranges goes through exactly when each range would, and never loops if none is unmanaged |
| FrameAllocator.FeedLoops | kernel/src/memory/frame.rs:343-343 | a range that is retried forever |
| FrameAllocator.FeedPanics | kernel/src/memory/frame.rs:229-234 | a range on which the assertion fails |
| FrameAllocator.Allocator.MarkUsable | kernel/src/memory/frame.rs:225-267 | when the assertion holds, and the blocks and count it then adds |
| FrameAllocator.Allocator.FeedRange | kernel/src/memory/frame.rs:314-345 | exactly which ranges go through, fail the assertion or loop forever; a range cut at zone borders is tiled in each zone |
| FrameAllocator.Allocator.Feed | kernel/src/memory/frame.rs:309-347 | refines feeding a list of ranges |
| Metadata.UsableAddresses | kernel/src/memory/heap.rs:456-484 | the usable ranges hold exactly the free addresses of the boot heap and the usable addresses below 64 KiB |
| Metadata.PagesAreFilled | kernel/src/memory/heap.rs:370-378 | the pages counted are those the ranges' bytes fill, with less than a page left over in each |
| Metadata.CarvingShrinks | kernel/src/memory/heap.rs:370-378 | carving a block out of the heap leaves no more ranges and no more pages |
| Metadata.SizingSuffices | kernel/src/memory/heap.rs:74-82 | counts taken before two carvings cover what is laid out after them |
| Metadata.CellsDistinct | kernel/src/memory/slab.rs:214-225 | two addresses share a metadata cell exactly when they share a page, and no cell is out of bounds |
| Metadata.WholePagesTracked | kernel/src/memory/slab.rs:56-102 | a page has a cell exactly when some range holds it whole |
| Metadata.FedFramesTracked | kernel/src/memory/heap.rs:74-82 | every frame fed to the frame allocator has metadata |
| MetadataObjects.BootUsableRanges.Next | kernel/src/memory/heap.rs:456-484 | yields the heap's ranges and then the low parts of usable arenas, each once, in order |
| MetadataObjects.RangeStats | kernel/src/memory/heap.rs:370-378 | counts ranges and pages |
| MetadataObjects.FromStorage | kernel/src/memory/slab.rs:56-102 | lays out the sections, and fails exactly when the storage is too small |
| MetadataObjects.MetaForPhys | kernel/src/memory/slab.rs:214-225 | the loop refines the lookup |
| MetadataObjects.BuildMetadata | kernel/src/memory/heap.rs:74-81 | succeeds exactly when there is memory to describe and room for the two tables; once they have been carved the layout never fails |
| MetadataObjects.UsableIsManaged | kernel/src/memory/heap.rs:65-82 | with zones sized by the highest usable address, no usable range is unmanaged or beyond capacity |
| BringUp.UsableDisjoint | kernel/src/memory/heap.rs:456-484 | the usable ranges read off the heap and the map do not overlap |
| BringUp.FeedCompletes | kernel/src/memory/heap.rs:74-82 | feeding the usable ranges completes exactly when no free region and no low range ends inside the first page of a zone, and panics otherwise |
| BringUp.FramesAreSafe | kernel/src/memory/heap.rs:74-82 | after any run of the boot heap on which feeding completes, each frame is put at most once, exactly when its whole page is usable, has metadata, and overlaps no block the boot heap handed out |
| BringUp.BringUpPanics | kernel/src/memory/heap.rs:63-98 | a memory map on which, straight from boot, feeding panics after all tables have been carved, before a usable arena is reached |
| BringUp.AllTaken | kernel/src/memory/frame.rs:91-104 | the blocks the frame allocator asks for, if they all fit, are a run of the boot heap and become live blocks |
| BringUp.AllocTables | kernel/src/memory/frame.rs:91-104 | the allocations in order, failing exactly when one does not fit |
| BringUp.MaxUsable | kernel/src/memory/heap.rs:65-71 | the highest end of a usable arena |
| BringUp.InitFrameAllocator | kernel/src/memory/heap.rs:63-98 | the whole of bring-up: it gets to feeding exactly when the frame allocator's tables and then the metadata fit, panics there exactly when something usable ends inside the first page of a zone, and otherwise every frame put is safe, with all those tables among the live blocks |
| BringUp.InitMemory | kernel/src/memory/heap.rs:44-98 | the same, straight from any tidy memory map |
| Registry.ClosedIsDescendants | library/object/src/registry.rs:246-279 | a set closed under active children, reached from the object, is exactly its descendants |
| RegistryRuns.AllocateIsFresh | library/object/src/registry.rs:36-46 | an index handed out is in no use, and reclaimed indices stay apart from those in use |
| RegistryRuns.RemovedInv | library/object/src/registry.rs:205-289 | after a removal the registry is well formed and no children entry names a removed object |
| RegistryRuns.RunKeepsInv | library/object/src/registry.rs:28-47 | in every reachable registry the next index handed out is free |
| RegistryObjects.ObjectRegistry.Allocate | library/object/src/registry.rs:36-42 | refines index allocation |
| RegistryObjects.ObjectRegistry.MarkChildren | library/object/src/registry.rs:249-275 | every active child is marked and queued once, and nothing else |
| RegistryObjects.ObjectRegistry.Visit | library/object/src/registry.rs:242-279 | the layer visit terminates with exactly the descendants marked |
| RegistryObjects.ObjectRegistry.Reclaim | library/object/src/registry.rs:281-286 | each visited object leaves the map and gives back its index once |
| RegistryObjects.ObjectRegistry.RemoveInternal | library/object/src/registry.rs:205-289 | refused exactly for an object already being destroyed; otherwise exactly the object and its descendants go, each index reclaimed once |

## Left out

- SchedulerRuns.RunKeepsInv: the run theorem of the scheduler is about runs whose ready weight stays below 2^64; beyond that `total_weight` saturates and is no longer a sum.
- SchedulerRuns.RunIsFair: assumes that no clock or service counter saturates, and a fixed ready set.
- SchedulerObjects.Scheduler.TakeMigratable: leaves the task in the wake inbox, as the code does, so nothing is claimed about wakeups that were queued before a migration; the intrusive links of the inbox are a sequence here.
- ServiceRuns.RunKeepsInv: calls have fresh ids; recycling of call ids is not modelled. Pager and syscall services use the same queue code and are further instances of the same object. An object may be closed at any time; nothing that closes one is part of this model.
- SlubRuns.RunKeepsInv: each operation is one step, as under the bootstrap lock; compare-exchange interleavings inside an operation are not modelled.
- RebaseLinker.Linker.Link: additions are checked, as in the development profile; the target is memory whose bytes can be read and written where they are mapped. The Mach-O parser is not part of this model.
- EarlyObjects.EarlyAllocator.Alloc: direct-map addresses equal physical ones; sums of addresses do not overflow; rounding to a power of two is written as arithmetic instead of masking.
- FrameAllocator.Allocator.MarkUsable: LLFree is the record of the blocks put into it; the flags of a put, and its failure on a frame that is already free, are not modelled.
- RegistryRuns.RunKeepsInv: creation is one step that takes an index and enters the child under an unused name; `add_child` is not part of this model, nor are concurrent removals.
- Whether the scheduler can wake a task is an input of the service operations; the sizes of the tables LLFree asks for, and how it uses them, are not part of this model, and the sizes are an input of bring-up.
- UEFI, graphics, page tables, trap frames, stacks, interrupts, clocks and the load balancer's policy: hardware or foreign calls.
- IPC port guards, capability tables, path lookup, the config parser, the logger, the symbol table, timers and futexes: thin branching around the state modelled here.
