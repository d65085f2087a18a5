# evQueue in Dafny

A verified model of the four parts of evQueue that hold its logic: the calendar search that finds
the next time of a schedule, the dispatcher (queues, task ids, forker and gatherer), the lifecycle
of a workflow instance (jobs, retries, cancelling, deletion), and the timed events with the table of
scheduled workflows above them. Where the program departs from what it is for, the model keeps what
the program does; a lemma shows where it fails, and another says exactly when it does not.

`dafny verify dfyconfig.toml` checks everything.

## How it is built

| files | what they model |
|---|---|
| Calendar | the proleptic Gregorian calendar and the normalisation of broken-down times (section 7.27.2.3 of ISO/IEC 9899:2011), in seconds at a fixed offset |
| Timetable, ScheduleText, ScheduleNumbers, Schedule, Exactness | the flags of a schedule, reading a description and its numbers, the class with its array and loops, and when the search finds the earliest match |
| Subsequences, QueueState, QueueOrder, Queue | a queue as two sequences, what it does over any run of its operations, and as linked nodes with the pointers the program keeps |
| PoolState, LinkedQueues, QueuePool | the pool of queues and the table of task ids, as a value, and as a class over arrays and over linked queues that share no node |
| RetryPlan, WorkflowState, WorkflowLaunch, WorkflowErrors, WorkflowRetries, ResumeState, Workflow | retries, the sections of a workflow instance as functions on its value, what each section decides, its errors, a task that fails every time, resuming, and the class that performs all this |
| SystemState, SystemPlaces, SystemSafety, SystemQueues, SystemWakeUp, SystemBounds, SystemCancel, SystemUnqueued, SystemJobs, SystemRetries, SystemEndings, SystemResume | all threads together as a step relation, what every run keeps, and starting again from savepoints |
| EventState, EventList, Timer | the list of events as a value and as linked nodes, and the timer thread around it |
| ScheduleTable, WorkflowScheduler | which schedules wait and which have an instance running, as a value and as parallel arrays |

The step relation has one step for each critical section of the pool or the retrier, and one for
opening, each call inside, and closing of an instance's locked section. What a thread carries
between two steps is part of the state. TaskExecute and the fork in it are one step: a release of the
child's id before TaskExecute has unlocked the instance touches nothing that TaskExecute still
touches. The gatherer and the retrier may take the next message before a section they opened is
closed, and an ended instance may be deleted at any later time; both are more interleavings than the
program has.

## Where the program departs from its intent

- `get_next_time` returns the earliest match for every starting time if and only if the schedule
  neither skips dates (February and March allowed, and the first allowed day past the end of some
  February is normalised beyond an allowed early day of March) nor skips seconds (midnight and several
  seconds allowed, some weekday not, and two consecutive dates allowed, as the weekday restart keeps
  the second): `Exactness.SearchIsExactIff`. What it returns is always an allowed time that is not before
  the starting time.
- `CancelTasks` leaves `last_task` alone. The queue keeps its tail if and only if the list becomes
  empty or its last task survives: `Queues.Queue.CancelTasks`. Otherwise the next task enqueued goes
  to the cancelled stack, where it is served beyond the concurrency; the cancelled tasks below the
  old tail are lost: `Queues.EnqueueBehindCancelledTail`; and once everything is served the queue
  follows a null pointer, as size counts a task too many: `Queues.ServeAll`.
  `Queues.Queue.CancelTasksRepaired` sets the tail and always keeps the queue.
- The wait of `DequeueTask` is not repeated, so a wake-up without a signal ends the forker:
  `SystemWakeUp.SpuriousWakeUpStopsForker`.
- Id 0 is handed out and is also the answer for a full table; `PoolState.ZeroIsAnsweredIff` says exactly
  when each happens. The forker goes on with the 0 of a full table as with any id, which keeps every task
  in its place if and only if an id is free: `SystemPlaces.RegisterKeepsIff`.
- A retry count below 0 is retried for ever: `RetryPlan.RetriesEndIff` says exactly when.
- An event inserted with a due time computed before the timer thread read the clock can hang the
  thread (`Timer.HangsWhenInsertedLate`); `Timer.HangsIffInsertedDue` says exactly which runs do.
- A schedule deactivated while it runs and activated again gets a second instance:
  `ScheduleTable.ReactivatedWhileRunning`; a reload is right exactly when
  `ScheduleTable.ReloadKeepsValidIff` says. A reload between an alarm and its registration leaves a
  schedule in two places (`ScheduleTable.ReloadedDuringAlarm`), and is right exactly when
  `ScheduleTable.InterruptedAlarmValidIff` says.
- A task that ran under id 0 is handed back under another one after a restart, unless every id after the
  last one given is taken: `PoolState.RegisteredAsSavedIff`. One whose queue is gone is registered nowhere
  (`SystemResume.UnknownQueueIsNotRegistered`) while its id is free again
  (`SystemResume.UnknownQueueLeavesIdFree`); with ids other than 0, resuming is right if and only if no
  queue is gone: `SystemResume.ResumeKeepsIff`. Resuming exceeds a concurrency that has been lowered;
  `SystemResume.ResumeBoundedIff` says exactly when it does not.

## Model

| member | source | states |
|---|---|---|
| Calendar.BrokenDown | Schedule.cpp:143-148 | The broken-down form of an instant is a real date whose instant is that one: localtime inverts mktime. |
| Calendar.RoundTrip | Schedule.cpp:200-206 | mktime of a real date, broken down again, gives the same date. |
| Calendar.InTimeOrder | Schedule.cpp:150-200 | Real dates compare field by field, largest field first, exactly as their instants do. |
| Calendar.Period | Schedule.cpp:79-83 | 400 years are 146097 days and whole weeks: leap years and weekdays repeat. |
| Calendar.PosixInstant | Schedule.cpp:200 | mktime gives the seconds since the Epoch of POSIX: seconds, minutes, hours, day of the year, and a day for each leap year, from 1 January 1970 at midnight. |
| Calendar.PosixWeekday | Schedule.cpp:208 | The weekday of an instant is the one counted from Thursday 1 January 1970. |
| Timetable.First | Schedule.cpp:150-197 | In the calendar where every month has 31 days there is a least tuple not before now with all five fields allowed. |
| Timetable.FirstIsUnique | Schedule.cpp:150-197 | There is only one such tuple. |
| Timetable.MatchesComeAfterFirst | Schedule.cpp:150-197 | No real match at or after now comes before that tuple. |
| Timetable.InvalidDateTest | Schedule.cpp:200-206 | Comparing day and month after mktime detects exactly the dates that do not exist. |
| Timetable.RestartIsLater | Schedule.cpp:202-217 | Both restarts are strictly later than the time searched from. |
| Timetable.RestartWithin | Schedule.cpp:202-217 | Neither restart jumps past a match that is at the last allowed second, on a date that an impossible February date cannot hide. |
| Timetable.DateOnWeekday | Schedule.cpp:79-83 | Every month and day that exists falls on every weekday in some later year of the wanted leapness. |
| Timetable.StopExists | Schedule.cpp:79-83 | For a satisfiable schedule such a match exists after every time, so the recursion ends. |
| Timetable.NextTimeBy | Schedule.cpp:134-221 | The search ends within any such bound with an allowed time not before now. |
| Timetable.AnyStopWillDo | Schedule.cpp:134-221 | Its result does not depend on the bound chosen to prove that it ends. |
| Timetable.NextTime | Schedule.cpp:134-221 | Every result is at or after now and allowed at all six levels. |
| Timetable.NextTimeUnfolds | Schedule.cpp:191-220 | The result is the candidate if it exists and its weekday is allowed, else the result from the restart. |
| Timetable.TurnOfSearch | Schedule.cpp:191-220 | One turn: which of the three exits is taken, as seen from the normalised candidate, and the restart stays within the bound. |
| Timetable.SatisfiableIffFeasible | Schedule.cpp:79-83 | Some instant matches if and only if some allowed month has an allowed day in some year: weekdays never matter. |
| ScheduleText.ParsedIsNonEmpty | Schedule.cpp:66-68 | A schedule read from a description has something allowed at every level. |
| ScheduleText.RefusedIffInfeasible | Schedule.cpp:79-83 | The test on the least day and the months refuses exactly the schedules no date satisfies. |
| ScheduleText.DescriptionsRoundTrip | Schedule.cpp:28-77 | Writing out any set of flags, level by level, and reading it back gives the same flags. |
| ScheduleNumbers.StrtolReadsNumber | Schedule.cpp:46 | strtol skips spaces, takes one sign, reads the decimal value, and stops behind the last digit. |
| ScheduleNumbers.NumberIsTaken | Schedule.cpp:46-63 | A number in the range of its level is taken, with a comma behind it or without, however it is written; any other is out of range. |
| ScheduleNumbers.OtherTextIsRefused | Schedule.cpp:48-49 | What is neither a number nor the end of the level is refused as not numeric, a lone sign included. |
| ScheduleNumbers.MoreTextIsGarbage | Schedule.cpp:76-77 | Any text behind a complete description is refused as garbage. |
| Schedules.Schedule.ReadValue | Schedule.cpp:45-63 | One value: strtol with its error cases, the range check, and the optional comma. |
| Schedules.Schedule.FillLevel | Schedule.cpp:66-68 | An empty level becomes full, and no other level changes. |
| Schedules.Schedule.SetFlags | Schedule.cpp:43-64 | The flags of a level are exactly the values listed; the least day is tracked. |
| Schedules.Schedule.ParseLevels | Schedule.cpp:37-77 | The loop over the levels reads the description as specified, and reports the same error. |
| Schedules.Schedule.Refused | Schedule.cpp:79-83 | The two tests on min_day. |
| Schedules.Schedule.Create | Schedule.cpp:28-84 | A well-formed description is accepted if and only if some real date and weekday satisfy it; a malformed one gives its error. |
| Schedules.Schedule.NextLevelsValid | Schedule.cpp:162-171 | Whether all higher levels allow the current value. |
| Schedules.Schedule.PickInLevel | Schedule.cpp:173-188 | The cyclic search of a level finds its first allowed value from the start, wrapping once. |
| Schedules.SettledIsFirst | Schedule.cpp:150-197 | Once all five levels are settled, with the month's carry as one year, the candidate is the least tuple. |
| Schedules.Schedule.FirstCandidate | Schedule.cpp:150-197 | The five loops with carry compute exactly that least tuple. |
| Schedules.Schedule.WeekdayAllowed | Schedule.cpp:208 | The weekday mktime fills in is the one tested. |
| Schedules.Schedule.NextTimeFrom | Schedule.cpp:134-221 | The recursive search over the array computes the specified next time and ends. |
| Schedules.Schedule.GetNextTime | Schedule.cpp:122-132 | The next time is strictly in the future and allowed, so the fallback of one year is never taken. |
| Exactness.RestartIsExact | Schedule.cpp:202-217 | Outside the two failing families no restart passes a match. |
| Exactness.DatesAreSkipped | Schedule.cpp:202-206 | Every schedule of the first family has a starting time from which a match is passed. |
| Exactness.SecondsAreSkipped | Schedule.cpp:208-217 | So has every schedule of the second. |
| Exactness.SearchIsExactIff | Schedule.cpp:134-221 | The search gives the earliest match from every starting time if and only if the schedule is in neither family. |
| Exactness.MarchFirstIsJumped | Schedule.cpp:202-206 | Days 1 and 30 from February 2 of any common year: March 1 is passed over for March 30. |
| Exactness.MondayMidnightIsPassed | Schedule.cpp:208-217 | Seconds 0 and 30 on Mondays, from Sunday 12:00:15: Monday 00:00:00 is passed over for 00:00:30. |
| QueueState.SurvivorsKeepOrder | Queue.cpp:133-155 | Cancelling leaves the other instances' tasks in their order. |
| QueueState.SurvivorsAre | Queue.cpp:140-151 | A task stays if and only if it belongs to another instance. |
| QueueState.StackedAre | Queue.cpp:140-149 | The cancelled stack gains exactly the instance's tasks. |
| QueueState.CancelKeeps | Queue.cpp:133-155 | Cancelling neither loses nor duplicates a task. |
| QueueState.EnqueueAdds | Queue.cpp:67-86 | Enqueueing adds one task to those waiting. |
| QueueState.DequeueRemoves | Queue.cpp:88-118 | Dequeueing removes the task it returns and no other. |
| QueueState.StaysUnlocked | Queue.cpp:157-164 | Enqueueing, releasing and cancelling never lock an unlocked queue. |
| QueueOrder.FirstInFirstOut | Queue.cpp:67-155 | Over any operations, each task enqueued is dequeued once or still waits, and the tasks of instances never cancelled are dequeued in the order they were enqueued. |
| QueueOrder.LastQueuedOnTop | Queue.cpp:139-152 | The cancelled tasks go on top of those cancelled before, the last queued first. |
| QueueOrder.TakenWithinConcurrency | Queue.cpp:157-164 | A task comes from the list if and only if none is cancelled, and then fewer run than may. |
| Queues.Queue.EnqueueTask | Queue.cpp:67-86 | With the tail in the list, the linked queue appends. Otherwise the list does not get the task though size counts it: behind a cancelled tail the stack is cut right after that tail and continued with the task; behind any other the task is on neither list. A freed node is written to exactly if the tail has been dequeued. |
| Queues.Queue.DequeueTask | Queue.cpp:88-118 | Nothing exactly on a locked queue, else the top of the cancelled stack, else the head of the list, and that node is freed; a null pointer is followed exactly when size counts a task, there is room, and both lists are empty. |
| Queues.Queue.ExecuteTask | Queue.cpp:120-124 | One more running task, nothing else. |
| Queues.Queue.TerminateTask | Queue.cpp:127-131 | One fewer running task, nothing else. |
| Queues.Queue.CancelTasks | Queue.cpp:133-155 | The pointer loop splits the list as specified; the tail is kept if and only if the list is now empty or its last task survived. |
| Queues.Queue.CancelTasksRepaired | Queue.cpp:133-155 | With last_task updated, the queue is always kept whole. |
| Queues.EnqueueBehindCancelledTail | Queue.cpp:81-82 | Whenever a cancel takes the tail while other tasks stay, the next enqueue leaves the stack with just the old tail and the new task: all other cancelled tasks are lost, the new one is served beyond the concurrency, and size is one too many. |
| Queues.ServeAll | Queue.cpp:88-118 | Serving everything hands over stack then list in order, and then crashes exactly if size counts more tasks than the list has. |
| Queues.ServedBeyondConcurrency | Queue.cpp:81-82 | Two tasks, the later one cancelled, then a third: both are on the stack of an unlocked queue whose size says 2 for a list of 1. |
| Queues.WritesToFreedTail | Queue.cpp:81-82 | Two tasks, the later one cancelled and served, then a third: it is linked to a freed node. |
| Queues.Queue.IsLocked | Queue.cpp:157-164 | As long as size is right, the fields decide what the contents say: no cancelled task, and no task or no room. |
| PoolState.Search | QueuePool.cpp:244-246 | The loop stops at the first free id after lasttid, all before it being taken. |
| PoolState.ExecuteFindsNearestFree | QueuePool.cpp:241-256 | An id is found if and only if one is free, and it is the cyclically nearest after lasttid; otherwise the pool is unchanged and the answer is 0. |
| PoolState.RegisterIsValid | QueuePool.cpp:258-264 | Registering keeps running equal to the live ids of each queue if and only if the id was free. |
| PoolState.ZeroIsAnsweredIff | QueuePool.cpp:241-256 | The answer is 0 if and only if no id is free, or 0 is free and every id after the last one given is taken. |
| PoolState.RegisteredAsSavedIff | QueuePool.cpp:241-260 | A task handed back with a free saved id is registered under it if and only if the id is not 0, or every id after the last one given is taken. |
| PoolState.TerminateIsValid | QueuePool.cpp:284-293 | Releasing an id keeps running equal to the live ids of each queue, and the cached flag right. |
| PoolState.EnqueueIsValid | QueuePool.cpp:175-177 | Enqueueing keeps the counters and the cached flag right. |
| PoolState.CancelIsValid | QueuePool.cpp:306-309 | So does cancelling. |
| PoolState.DequeueIsValid | QueuePool.cpp:212-218 | So does dequeueing. |
| PoolState.PoolStaysUnlocked | QueuePool.cpp:162-316 | Enqueueing, releasing and cancelling never lock an unlocked pool. |
| PoolState.CancelLosesNothing | QueuePool.cpp:302-316 | Cancelling leaves the number of times each task waits unchanged. |
| PoolState.TerminateCounts | QueuePool.cpp:284-291 | Releasing an id removes one registration of its task and leaves the waiting tasks alone. |
| QueuePools.Lookup | QueuePool.cpp:130-149 | The binary search finds a name if and only if it is there. |
| QueuePools.QueuePool.constructor | QueuePool.cpp:77-100 | All ids free, and the flag right from the start. |
| LinkedQueues.Append | QueuePool.cpp:175 | Enqueueing in one linked queue changes no other; it is the specified enqueue as long as that queue has its tail, and leaves a size one too many otherwise. |
| LinkedQueues.Take | QueuePool.cpp:214 | So does dequeueing, which takes the specified task. |
| LinkedQueues.TakeFirst | QueuePool.cpp:212-226 | The loop takes the head of the first queue that is not locked, or nothing if all are. |
| LinkedQueues.Run | QueuePool.cpp:262 | One more or one fewer running task on one queue, and no other change. |
| LinkedQueues.Cancel | QueuePool.cpp:304-307 | The loop cancels in every queue; all still have their tails if and only if no list goes on after its last task was cancelled. |
| LinkedQueues.IsLocked | QueuePool.cpp:318-325 | The loop answers whether every queue is locked. |
| QueuePools.QueuePool.EnqueueTask | QueuePool.cpp:162-183 | Unknown names are refused without effect; otherwise the named queue, if it has its tail, gets the task, and the forker is signalled exactly when it sleeps and there is work. |
| QueuePools.QueuePool.DequeueTask | QueuePool.cpp:185-202 | Shutdown, wait, or the first task of the first unlocked queue. |
| QueuePools.QueuePool.AfterWait | QueuePool.cpp:204-229 | After the wait: shutdown, a task, or nothing if all queues are locked. |
| QueuePools.QueuePool.FindTid | QueuePool.cpp:243-248 | The search loop over the array, and the last id it looked at, which is remembered. |
| QueuePools.QueuePool.ExecuteTask | QueuePool.cpp:231-271 | The arrays and the answer for an unknown queue, a given id, id 0 (which asks for a new one), a full table, and an id outside the table. |
| QueuePools.QueuePool.Allocate | QueuePool.cpp:243-256 | The arrays after registering a task under a new id. |
| QueuePools.QueuePool.Register | QueuePool.cpp:258-266 | The arrays, the counter, the flag and the signal of a registration. |
| QueuePools.QueuePool.TerminateTask | QueuePool.cpp:273-300 | A free id is refused without effect, an id outside the table is looked up all the same; otherwise the registered task is returned and its id freed. |
| QueuePools.QueuePool.CancelTasks | QueuePool.cpp:302-316 | Every queue is cancelled, and the forker signalled if that unlocks the pool; the queues keep their tails if and only if no list goes on after its last task was cancelled. |
| QueuePools.QueuePool.Shutdown | QueuePool.cpp:327-337 | The flag, and a signal to a sleeping forker. |
| RetryPlan.RetriesEndIff | WorkflowInstance.cpp:1039-1065 | A task failing every time is retried without end if and only if it reaches a level, or has its own, that is to be retried a negative number of times. |
| RetryPlan.RetriesRunOut | WorkflowInstance.cpp:1012-1046 | Otherwise each retry lowers the levels left or, at the same level, the retries left. |
| RetryPlan.ScheduleIsFollowed | WorkflowInstance.cpp:995-1071 | A task failing every time under a schedule that is not without end waits exactly the delays its schedule asks for, then counts one error. |
| RetryPlan.ExecutedOncePlusAllRetries | WorkflowInstance.cpp:1409-1465 | With positive levels it is executed once and once more for each retry of each level. |
| RetryPlan.OwnRetriesAreFollowed | WorkflowInstance.cpp:1019-1036 | Without a schedule its own delay and times rule, for ever exactly if the times are negative and the delay is not 0. |
| RetryPlan.OtherRetvalIsNotRetried | WorkflowInstance.cpp:1053-1056 | Restricted to another return value it is never retried, and is an error exactly if it would not have been retried anyway. |
| RetryPlan.SilentIff | WorkflowInstance.cpp:1047-1056 | A failure counts neither a retry nor an error only if retry_retval names another value and the task would have been retried. |
| WorkflowState.SubjobsOnlyQueue | WorkflowInstance.cpp:1154-1273 | Launching subjobs queues or aborts tasks that had no part in anything yet, each asked for once, and touches nothing else. |
| WorkflowState.CallPlaces | WorkflowInstance.cpp:1377-1399 | Each call puts its task where the instance already counts it, and moves no other. |
| WorkflowState.StartTransfers | WorkflowInstance.cpp:339-368 | After Start the counters count, and every counted task is one of the calls. |
| WorkflowState.CancelTransfers | WorkflowInstance.cpp:418-427 | Cancelling moves no task. |
| WorkflowState.TaskExecuteTransfers | WorkflowInstance.cpp:591-889 | A queued task becomes executing or ends; the counters still count and nothing else moves. |
| WorkflowState.TaskRestartTransfers | WorkflowInstance.cpp:429-441 | A retried task goes back to its queue or ends; the counters still count. |
| WorkflowState.TaskStopTransfers | WorkflowInstance.cpp:443-589 | A stopped task's claim ends; what is retried or launched takes its place, and the counters count it. |
| WorkflowState.LaunchedOnceAllSucceeded | WorkflowInstance.cpp:558-578 | A job's subjobs are launched exactly when all its tasks are TERMINATED with 0, and were not launched before. |
| WorkflowState.CancelledExecuteWindsDown | WorkflowInstance.cpp:601-615 | After a cancel, TaskExecute starts nothing and leaves one callback fewer. |
| WorkflowState.CancelledRestartWindsDown | WorkflowInstance.cpp:1360-1369 | So does TaskRestart. |
| WorkflowState.CancelledStopWindsDown | WorkflowInstance.cpp:547-582 | So does TaskStop, even when it completes its job. |
| WorkflowState.LastCallbackEnds | WorkflowInstance.cpp:1467-1486 | The counters are both 0 if and only if none of the instance's tasks is anywhere. |
| WorkflowLaunch.LaunchDecides | WorkflowInstance.cpp:1154-1273 | The first launch of a job's subjobs queues exactly the tasks that come before any exception in jobs whose condition is not false, once each and in document order, aborts those without a queue or of a cancelled instance, leaves all others alone, and counts one error per abort and one for an exception. |
| WorkflowLaunch.StartDecides | WorkflowInstance.cpp:339-368 | So does Start, for the root's subjobs. |
| WorkflowLaunch.TerminatedArePassedOver | WorkflowInstance.cpp:1087-1093 | A job runs as if it had only the tasks that are not terminated. |
| WorkflowLaunch.StopDecides | WorkflowInstance.cpp:443-589 | After TaskStop the task is TERMINATED with its value, or ABORTED if it returned 0 and its output could not be taken; it is retried exactly if it failed, the instance is not cancelled and its retry attributes say so, after just their delay; its job is launched exactly if all its tasks have now succeeded; and errors rise by exactly what failed. |
| WorkflowLaunch.RetryDecides | WorkflowInstance.cpp:995-1071 | retry_task leaves the task with the attributes decided, one call for a retry and one error for giving up. |
| WorkflowLaunch.ExecuteDecides | WorkflowInstance.cpp:591-889 | A task executes exactly if it was forked and the instance is not cancelled; otherwise it is aborted, counted as an error, and no longer running. |
| WorkflowLaunch.RestartDecides | WorkflowInstance.cpp:429-441 | A retry goes back to its queue with its attributes unchanged, or is aborted and counted. |
| WorkflowErrors.SectionCounts | WorkflowInstance.cpp:339-889 | In every section, each task newly aborted is one more error. |
| WorkflowErrors.AbortsAreErrors | WorkflowInstance.cpp:1467-1486 | Through whatever sections, an instance ends with at least as many errors as aborted tasks. |
| WorkflowRetries.FailingTaskFollowsPlan | WorkflowInstance.cpp:995-1071 | Through whatever sections, a task that fails every time waits the delays of its plan in order, is forked once more than it has waited, finishes only after all of them, and counts one error exactly if its plan ends in one; if it is to be retried for ever it never finishes. |
| ResumeState.ResumeIsConsistent | WorkflowInstance.cpp:370-416 | A resumed instance counts what its statuses say, asks again for each queued or retried task, and expects only the executing ones to be outside it already. |
| ResumeState.ResumeDecides | WorkflowInstance.cpp:370-416 | Each queued task goes back to its queue or is aborted, each failed one is retried or given up by its saved attributes, in document order; each abort and each task given up is one error; nothing else happens. |
| Workflows.WorkflowInstance.constructor | WorkflowInstance.cpp:984-992 | Counters at 0, nothing cancelled. |
| Workflows.WorkflowInstance.EnqueueTask | WorkflowInstance.cpp:1358-1407 | The method does what the section's function says, with the same call. |
| Workflows.WorkflowInstance.Run | WorkflowInstance.cpp:1073-1152 | The loop over a job's tasks, stopping at an input value that cannot be computed. |
| Workflows.WorkflowInstance.RunSubjobs | WorkflowInstance.cpp:1154-1273 | The loop over subjobs with conditions, and the error an exception counts. |
| Workflows.WorkflowInstance.Start | WorkflowInstance.cpp:339-368 | Launches the root's subjobs and tells whether the workflow has ended. |
| Workflows.WorkflowInstance.Resume | WorkflowInstance.cpp:370-416 | The loop over queued, executing and terminated tasks; exactly the executing ones are handed back to the pool. |
| Workflows.WorkflowInstance.Cancel | WorkflowInstance.cpp:418-427 | Only the flag changes. |
| Workflows.WorkflowInstance.TaskRestart | WorkflowInstance.cpp:429-441 | Enqueues the task, counts one retry fewer, and tells whether the workflow has ended. |
| Workflows.WorkflowInstance.TaskStop | WorkflowInstance.cpp:443-589 | Takes the result, launches a completed job, counts one running task fewer, and tells whether the workflow has ended. |
| Workflows.WorkflowInstance.AllSucceeded | WorkflowInstance.cpp:559-567 | The two counts agree exactly when every task of the job has succeeded. |
| Workflows.WorkflowInstance.TaskExecute | WorkflowInstance.cpp:591-889 | Refusal when cancelling, unknown task, failed fork, fork: status and counters of each. |
| Workflows.WorkflowInstance.ScheduleUpdate | WorkflowInstance.cpp:1409-1465 | The next level of a known schedule, or zeros past the last. |
| Workflows.WorkflowInstance.RetryTask | WorkflowInstance.cpp:995-1071 | Whether, when and with what attributes a failed task is retried. |
| SystemPlaces.StepKeeps | ProcessManager.cpp:101-126 | Every step of every thread keeps each task in exactly the place its instance believes it to be. |
| SystemPlaces.CallKeeps | QueuePool.cpp:162-183 | A call made inside a section keeps that. |
| SystemPlaces.ScanKeeps | QueuePool.cpp:204-228 | Taking a task from a queue into the forker's hand keeps it. |
| SystemPlaces.RegisterKeeps | ProcessManager.cpp:112 | Registering the task keeps it, a free id assumed. |
| SystemPlaces.RegisterKeepsIff | ProcessManager.cpp:112-114 | As the forker does not look at the answer, registering keeps it if and only if an id is free. |
| SystemPlaces.ExecuteKeeps | ProcessManager.cpp:114 | TaskExecute keeps it, forked or refused. |
| SystemPlaces.ReleaseKeeps | ProcessManager.cpp:116-125 | Giving back the id of a refused task keeps it. |
| SystemPlaces.GatherKeeps | ProcessManager.cpp:201-205 | Releasing the id of an exited child keeps it. |
| SystemPlaces.StopKeeps | ProcessManager.cpp:207-213 | TaskStop keeps it. |
| SystemPlaces.RestartKeeps | Retrier.cpp:64-75 | A retry event handed to TaskRestart keeps it. |
| SystemPlaces.CancelQueuedKeeps | handle_connection.cpp:223-224 | Cancelling queued tasks keeps it. |
| SystemPlaces.DeleteKeeps | ProcessManager.cpp:124-125 | Deleting an instance whose end was seen keeps it. |
| SystemPlaces.ForkedHasNotEnded | WorkflowInstance.cpp:882 | TaskExecute never reports the end of an instance after a fork. |
| SystemSafety.InitialIsPlaced | QueuePool.cpp:84-100 | The program starts with every task in its place. |
| SystemSafety.RunKeeps | ProcessManager.cpp:86-222 | In every run, over all interleavings, every task stays in its place. |
| SystemSafety.NoDanglingReference | ProcessManager.cpp:101-126 | Whatever a queue, a live child, the retrier or a thread refers to is in memory, has not ended, and knows the task. |
| SystemSafety.AtMostOnePlace | WorkflowInstance.cpp:1358-1407 | A task is queued, executing or waiting for a retry, never two of these and never twice. |
| SystemSafety.CountersCount | WorkflowInstance.cpp:1467-1486 | At rest running_tasks is the number of the instance's tasks in queues, under ids and in hands, and retrying_tasks that of its retry events. |
| SystemSafety.StepEnds | ProcessManager.cpp:124-125 | Only one callback ever sees workflow_ended true. |
| SystemSafety.LastOneEnds | WorkflowInstance.cpp:580-582 | A closing section ends its instance if and only if nothing refers to any of its tasks. |
| SystemSafety.LastRefusalEnds | WorkflowInstance.cpp:591-889 | So does TaskExecute, forked or refused. |
| SystemSafety.ExpectedRefers | WorkflowInstance.cpp:1358-1407 | A task the instance counts is really there: in a queue, under an id, with the retrier or in a hand. |
| SystemQueues.StepAtHome | QueuePool.cpp:162-300 | Every step keeps each task in the queue that its document names, in the forker's hand and under its id as well. |
| SystemQueues.TasksKeepToTheirQueues | WorkflowInstance.cpp:1378-1388 | So in every run. |
| SystemWakeUp.SignalIsEnough | QueuePool.cpp:177-179 | An operation that leaves the pool unlocked leaves no sleeping forker without its signal. |
| SystemWakeUp.StepWakes | QueuePool.cpp:162-337 | A sleeping forker has been signalled if and only if there is work or a shutdown: no step loses a wake-up. |
| SystemWakeUp.InitialWakes | QueuePool.cpp:96-100 | So it is at the start. |
| SystemWakeUp.NoLostWakeUp | QueuePool.cpp:185-229 | In every run a forker asleep means every queue is locked, a woken one finds a task, the flag is right, and DequeueTask returns false only on shutdown. |
| SystemWakeUp.SpuriousWakeUpStopsForker | QueuePool.cpp:198-202 | Any wake-up without a signal ends the forker without a shutdown. |
| SystemWakeUp.SignalsFindSleeper | QueuePool.cpp:198-210 | In every run a signal is sent only to a forker that sleeps, until a shutdown. |
| SystemBounds.StepBounded | Queue.cpp:157-164 | No step forks beyond a queue's concurrency, and the side lists hold only cancelled instances' tasks. |
| SystemBounds.ForkedAreLive | QueuePool.cpp:258-291 | A queue's counter is its forked, unreleased tasks plus the one the forker has registered. |
| SystemBounds.InitialIsBounded | Queue.cpp:45-49 | The program starts within the concurrency of every queue. |
| SystemBounds.ConcurrencyIsBounded | ProcessManager.cpp:101-126 | In every run forked tasks never exceed the concurrency; the counter does by at most one, and only for a cancelled instance's task in the forker's hand. |
| SystemCancel.StepWinds | handle_connection.cpp:212-224 | For a cancelled instance a callback leaves one fewer to come, no other step changes that number, and no task starts. |
| SystemCancel.EndsAfterOutstandingCallbacks | WorkflowInstance.cpp:418-441 | In every run from a cancel, the instance ends after exactly the callbacks then outstanding. |
| SystemUnqueued.CancelUnqueues | QueuePool.cpp:302-316 | Cancelling the queued tasks of an instance leaves none of them in a list, and each still waits as often as before. |
| SystemUnqueued.CancelledNeverWaitsForRoom | handle_connection.cpp:212-224 | In every run, after both halves of a cancel, no task of the instance waits for room in its queue: while one waits the pool is not locked and no unsignalled forker sleeps. |
| SystemJobs.LaunchIsFirst | WorkflowInstance.cpp:563-578 | A Start, or a TaskStop that completes its job, launches a job that the instance had not launched before. |
| SystemJobs.LaunchedAtMostOnce | WorkflowInstance.cpp:567-578 | In every run no step runs the subjobs of a job that an earlier step ran, of any instance alive or gone. |
| SystemJobs.LaunchFindsAllSucceeded | WorkflowInstance.cpp:559-567 | In every run each launch finds all tasks of its job TERMINATED with 0. |
| SystemJobs.LaunchedHasSucceeded | WorkflowInstance.cpp:563-567 | In every run a job once launched has all its tasks TERMINATED with 0, and keeps them so. |
| SystemRetries.RunIsSections | ProcessManager.cpp:101-213 | Every run of the program is, for each instance, a run of its sections, each of which finds its task where it should be. |
| SystemRetries.StartIsLaunch | WorkflowInstance.cpp:339-368 | An instance enters memory with its document and attributes, and with what launching the root's subjobs asks for. |
| SystemRetries.FailingTaskIsForked | WorkflowInstance.cpp:1409-1465 | In every run a task that always fails under a schedule of positive delays d and times n is forked exactly 1 + the sum of all n times, waits each d n times, and then counts one error. |
| SystemEndings.StepDue | ProcessManager.cpp:116-125 | Every step keeps each ended instance in the hand of a thread that is to delete it. |
| SystemEndings.EndedIffToBeDeleted | ProcessManager.cpp:212-213 | In every run an instance in memory has ended if and only if it can be deleted now, or, exclusively, once the forker has given back the id it holds. |
| SystemEndings.DeletedIsGone | Retrier.cpp:71-72 | After its deletion nothing refers to it, and nobody will delete it again. |
| SystemResume.ResumeKeeps | evqueue.cpp:217-237 | Resuming instances one after the other before the threads start keeps every task in its place, every end recorded and no wake-up lost, if each executing task's queue is still known and it did not run under id 0. |
| SystemResume.ResumeKeepsIff | WorkflowInstance.cpp:391-400 | With saved ids other than 0, every task is in its place after resuming if and only if every executing task's queue is still known. |
| SystemResume.UnknownQueueIsNotRegistered | WorkflowInstance.cpp:391-400 | An executing task whose queue is no longer known is counted by its instance and registered nowhere. |
| SystemResume.UnknownQueueLeavesIdFree | QueuePool.cpp:235-237 | Its id is free in the table while its process is still to exit. |
| SystemResume.ResumeBoundedIff | QueuePool.cpp:258-262 | Resuming leaves every queue within its concurrency if and only if what runs on it and the executing tasks that go back to it are together no more. |
| EventState.InsertSplits | Scheduler.cpp:82-86 | The new event goes behind all that are not later and before all that are: stable among equal times. |
| EventState.InsertKeepsSorted | Scheduler.cpp:56-95 | Inserting keeps the list sorted and adds just that event. |
| EventState.FlushRemovesMatching | Scheduler.cpp:114-130 | A flush removes every event, or with a filter exactly those of the instance. |
| EventState.FlushKeepsOrder | Scheduler.cpp:128-129 | It leaves the others in order. |
| EventState.FlushConserves | Scheduler.cpp:121-126 | It hands over what it removes and loses nothing. |
| EventState.AlarmIsNotEarly | Scheduler.cpp:229-245 | An alarm delivers the earliest event, never before its time, and nothing exactly when none is due. |
| EventState.DeliveredOnce | Scheduler.cpp:169-176 | In every run no event is delivered more often than inserted, and one not delivered is still in the list. |
| EventLists.EventList.InsertEvent | Scheduler.cpp:56-95 | The linked list gets the event at its place; the thread is woken exactly when a new first event displaces another. |
| EventLists.EventList.FindPlace | Scheduler.cpp:82-84 | The walk stops where the specification inserts. |
| EventLists.EventList.Flush | Scheduler.cpp:97-138 | The pointer loop removes the matching events in order and keeps number_of_events; the thread is woken exactly when the first event goes. |
| EventLists.EventList.ShiftEvent | Scheduler.cpp:229-245 | Takes the first event if and only if it is due. |
| Timer.StepNoneDue | Scheduler.cpp:169-221 | While the thread decides whether to sleep, no event is due by the time it read, if none is inserted already due meanwhile. |
| Timer.NeverHangs | Scheduler.cpp:192-193 | In every such run the thread only sleeps for a positive time and never loops with the mutex locked. |
| Timer.NeverHangsAtOnce | Scheduler.cpp:171-193 | So in every run where reading the clock and inserting are one step. |
| Timer.HangsWhenInsertedLate | Scheduler.cpp:171-193 | Without that, for any start and any event due a second later, six steps, one of which inserts that event, leave the thread looping with the mutex locked. |
| Timer.HangsIffInsertedDue | Scheduler.cpp:169-221 | A run hangs the thread if and only if an event is inserted already due while the thread decides, and no flush takes it back before the decision. |
| Timer.DueInsertionHangs | Scheduler.cpp:248-250 | Every such insertion hangs it at the next decision. |
| Timer.EventsHaveThread | Scheduler.cpp:62-72 | In every run the thread goes exactly when it finds the list empty, and no event waits without a thread: inserting into an empty list starts it again. |
| Timer.DueEventIsDelivered | Scheduler.cpp:169-176 | Woken when the first event is due, it delivers that event. |
| ScheduleTable.AlarmKeepsValid | WorkflowScheduler.cpp:146-185 | An alarm moves a schedule from waiting to executing, or drops it if no instance can be created. |
| ScheduleTable.StopKeepsValid | WorkflowScheduler.cpp:113-140 | The end of an instance finds its schedule executing and puts it back to wait, unless a failure suspends it. |
| ScheduleTable.ReloadKeepsValidIff | WorkflowScheduler.cpp:198-251 | Reloading keeps the table right if and only if every schedule with a live instance is loaded again; it then stays bound to that instance. |
| ScheduleTable.OneLiveInstance | WorkflowScheduler.cpp:142-196 | No schedule has two live instances. |
| ScheduleTable.OnePlace | WorkflowScheduler.cpp:80-111 | A schedule waits at most once, and not while it executes. |
| ScheduleTable.StepKeepsValid | WorkflowScheduler.cpp:80-251 | A schedule leaves the table only on a failed creation, a suspending failure, or a reload without it. |
| ScheduleTable.RunKeepsValid | WorkflowScheduler.cpp:80-251 | The same over every run. |
| ScheduleTable.ReactivatedWhileRunning | WorkflowScheduler.cpp:225-229 | A schedule reloaded away while running and then reloaded again gets a second live instance. |
| ScheduleTable.StopCrashesAfterReactivation | WorkflowScheduler.cpp:126-131 | Reloaded like that, while it waits again, the end of its first instance follows a null pointer. |
| ScheduleTable.InterruptedAlarmValidIff | WorkflowScheduler.cpp:157-169 | A reload between an alarm and its registration keeps the table right if and only if the schedule in hand is active but was not loaded, and every live schedule was. |
| ScheduleTable.ReloadedDuringAlarm | WorkflowScheduler.cpp:157-169 | Whenever that reload has loaded the schedule in hand, it ends up waiting and executing with a live instance. |
| WorkflowSchedulers.Lookup | WorkflowScheduler.cpp:349-369 | The binary search finds an id if and only if it is there. |
| WorkflowSchedulers.WorkflowScheduler.ScheduleWorkflow | WorkflowScheduler.cpp:80-111 | The arrays and the pending events after scheduling or registering. |
| WorkflowSchedulers.WorkflowScheduler.ScheduledWorkflowInstanceStop | WorkflowScheduler.cpp:113-140 | The arrays after the end of an instance; a null pointer is followed exactly when the schedule is known and has no executing entry. |
| WorkflowSchedulers.WorkflowScheduler.Alarm | WorkflowScheduler.cpp:146-169 | The arrays after an alarm, up to the registration. |
| WorkflowSchedulers.WorkflowScheduler.Init | WorkflowScheduler.cpp:322-347 | New arrays with nothing executing. |
| WorkflowSchedulers.WorkflowScheduler.Reload | WorkflowScheduler.cpp:198-251 | The loop over the rows rebuilds the arrays from the old ones as specified. |

## Left out

- QueuePools.QueuePool: its operations are specified while each queue's size is right; after an enqueue behind a cancelled tail only Queue.dfy says what that queue does. `strcmp` order is assumed of the names read from the database.
- SystemPlaces.RegisterKeeps: assumes that an id is free, as the forker ignores the failure of ExecuteTask.
- SystemPlaces.CancelQueuedKeeps: uses the repaired cancel, so each queue stays a FIFO, as the whole step relation does; what the literal one does to later enqueues is in Queue.dfy.
- SystemResume.ResumeKeeps: assumes the saved ids of executing tasks free and distinct.
- SystemWakeUp.NoLostWakeUp: assumes that a condition wait is not woken without a signal.
- Timer.NeverHangs: assumes a clock that does not go back and positive delays. One timer thread is modelled; after a list has emptied the program can have more than one.
- ScheduleTable.RunKeepsValid: assumes that an alarm is not interrupted by a reload before its registration, and that running schedules stay active and can be loaded.
- RetryPlan.ScheduleIsFollowed: the schedule is one that the document knows, and a saved level is not negative; for an unknown one the program reads variables it has not set.
- WorkflowState: loops of tasks and jobs are expanded beforehand, as their expansion depends on XPath results; conditions and input values come out as given. A job's tasks have no status before it is launched.
- Schedules.Schedule.GetNextTime: at a fixed offset from UTC; no daylight saving, leap seconds, or overflow of time_t, and strtol without overflow.
- The bodies of fork, exec, pipes, ssh and the log files in TaskExecute: a task is forked, unknown, or cannot be forked.
- Message queues: each forked task sends one exit message, in any order.
- Database, XML, sockets, savepoints, logging, statistics and configuration: input and output, or easy.
- Lock order between the retrier and the instances, and copying and destruction of Task, Workflow and RetrySchedule objects.
