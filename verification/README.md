# OpenRing, verified

A Dafny model of the stateful core of OpenRing's Python services, with proofs about whole runs.
Check everything with `dafny verify dfyconfig.toml`.

Each file models one component. An object whose methods change it is a class here as well; each
method is proved to do what a specification function on a value says, and the theorems are about
those functions: over all inputs, all runs and all interleavings. A block of code under a lock is
one atomic step, and everything between two such blocks may happen in between. Answers of the
network, the disk, the model loader and the clock are parameters.

| file | component |
|---|---|
| HotReload.dfy, ReloadRules.dfy, ReloadCrashes.dfy, Supervisor.dfy | configuration reload over a reference-counted model pool |
| VisitTracker.dfy, VisitPairs.dfy, VisitOrder.dfy, CompoundKeys.dfy | sessions of detections with asynchronous expiry |
| RecognitionBuffer.dfy, RecognitionFates.dfy | coalescing of detections with their recognitions |
| FairLock.dfy | first-in-first-out lock with timeouts |
| Scheduler.dfy, ScheduleFlag.dfy, ScheduleReads.dfy, TimeSort.dfy | arm and disarm schedule polled at arbitrary instants |
| NotificationQueue.dfy, CommitAndRestart.dfy, RetryRuns.dfy, RetryWaits.dfy, RetryQueue.dfy | retry queue of notifications and its file |
| Doorbell.dfy, DoorbellReplies.dfy | press queue with concurrent flushers |
| RateLimiter.dfy, CompoundKeys.dfy | fixed-window counter in Redis |
| CameraHealth.dfy | outage and recovery alerts |
| Clipper.dfy, TimeSort.dfy | clips from a ring of video segments |
| Evaluator.dfy, BoxCells.dfy | precision, recall, F1 and box overlap |
| Publisher.dfy | event publisher with a bounded buffer |
| SecretBox.dfy, SecretFields.dfy | encryption of configuration fields in place |
| Wrappers.dfy | the Option datatype |

## What came out

Several properties hold only under a condition. Each is proved as an equivalence, or with a
counterexample beside it:

- A reload equals a cold start when camera names are distinct and every start succeeds. A restart
  that is impossible, because the model file is missing or the model neither loads nor is held by
  another camera, loses the camera. A reload raises KeyError exactly if that happens in a restart
  for changed global classes, or to an active camera that the list names again later. Two cameras
  of one new name leak a model reference for ever; otherwise starts that succeed leak none.
- Sweeps of expired visits cannot be observed exactly if none is early for the key in question;
  clock readings in lock order suffice. Keys of the form camera:class collide exactly if one camera
  name is the other, a colon, and the front of the other's class. The rate limiter's keys are alike.
- Polling the schedule loses nothing exactly if both getters stay within their UTC day. A daily
  local time that falls on the next UTC day, such as 22:00 in New York, lies outside it; the
  module's own comment promises that scheduled boundaries fire, the code visits only the UTC dates
  of a tick's two ends. The search for the next transition differs from polling exactly if nothing
  is due before the midnight that ends its third date, and something is at that midnight.
- The comment on `configure` promises ticks a consistent snapshot, but the getters read the fields
  outside the lock. A tick in the middle of a reconfiguration can see the old time in the new zone,
  and can be aborted by an exception after its interval has been ticked off. The exact conditions
  are given.
- The retry queue removes entries by equality. That takes an undecided entry exactly if an equal one
  on the removal list was pushed out of the full queue during the pass. It needs an enqueue whose
  clock reading is 30 seconds or more behind the pass; a run that loses an entry so is given.
- An entry is sent at most 148 times, which a run reaches, not counting what restarts repeat. The
  file is written by an enqueue and by a commit, not in between: a process that dies before the
  commit forgets the attempts of the pass, and sends again. With saves that succeed, each such
  pass adds at most one send of an entry, and a process that dies in every pass sends it for ever.
- The doorbell queue also compares by equality, and there distinct presses are needed: with two
  equal presses a late flusher takes the second one unanswered.
- The rate limiter's comment allows 2 * capacity requests over two windows. The exact bound is
  2 * capacity - 1 per window length. A failed EXPIRE is never repaired.
- The clipper's settings bound the time before the event by all but two segments of the ring. The
  time after it and the worker's lateness count as well.

## Model

| member | source | states |
|---|---|---|
| HotReload.HotReloadEqualsColdStart | services/detector/src/main.py:702-812 | From any safe state, a reload to a configuration with distinct names in which every attempted start succeeds ends in the tracked state of a fresh start: same cameras with model path, classes, zones, rules, deterrent rules and confidence, same pool contents, reference counts and defaults |
| ReloadRules.ReloadInForce | services/detector/src/main.py:702-812 | After a reload that raises nothing, failed starts included, every active camera is listed and runs with exactly its notification rules, or its legacy rules when those are absent, its zones, deterrent rules, confidence, classes and model, and its detector with the confidence and classes of the configuration; a model that is not given stays what it was |
| ReloadRules.ColdStartInForce | services/detector/src/main.py:544-637 | The same after a start-up |
| ReloadRules.MigrationUnobservable | services/detector/src/main.py:244-250 | Whether rules stand under the legacy key or the new one makes no difference to any reload or start-up |
| ReloadRules.ReloadWithoutModel | services/detector/src/main.py:719-728 | A reload without a model ends where a fresh start with the present default would |
| ReloadRules.ClassesChangeIff | services/detector/src/main.py:730 | Cameras are restarted for global classes if and only if some class is new or gone, whatever the order and repetition |
| HotReload.PoolSafety | services/detector/src/model_pool.py:48-102 | In every run of starts under free names, stops, and reloads that list no new name twice, failed starts and crashed reloads included: both dicts of the pool have the same keys, each count is positive and equals the number of active cameras on that path, every camera has the pooled detector and every detector the current defaults; with no camera the pool is empty |
| HotReload.StartSafeIff | services/detector/src/main.py:544-622 | A start keeps the pool safe if and only if its name is not active yet or the start cannot succeed: no model file, or a model that is neither loaded nor loadable |
| HotReload.ColdStartSafeIff | services/detector/src/main.py:636-637 | When every start succeeds, the start-up loop leaves the pool safe if and only if no two configured cameras have the same name |
| HotReload.ReloadSafeIff | services/detector/src/main.py:702-812 | When every attempted start succeeds, a reload leaves the pool safe if and only if no two listed cameras share a name that was not active before |
| HotReload.DuplicateNamesLeak | services/detector/src/main.py:636-637 | Two configured cameras with one name: the second start leaks a reference that no stop returns |
| ReloadCrashes.ReloadCrashesIff | services/detector/src/main.py:730-784 | For every list of cameras, repeated names included, a reload raises KeyError if and only if one of two restarts is impossible: one that a change of the global classes asks for; or one by an entry whose active name is listed again later. Impossible means that the model file is missing, or that the model cannot be loaded and nobody else holds it at that moment |
| ReloadCrashes.CrashingReload | services/detector/src/main.py:730-769 | A reload of the first kind: one camera whose model file is gone while the classes change |
| ReloadCrashes.TwiceListed | services/detector/src/main.py:761-784 | A reload of the second kind: one camera listed twice with a new model whose file is missing, with the classes as before |
| ReloadCrashes.ListPassCrashesIff | services/detector/src/main.py:761-784 | The pass over the list fails if and only if some entry names a known camera that is missing by a bookkeeping of who holds which model, in which reference counts play no part |
| ReloadCrashes.StepLedger | services/detector/src/main.py:761-784 | Each entry of the list changes the holders as that bookkeeping says, and the pool counts exactly the holders of each model, those leaked by repeated names included |
| ReloadCrashes.ClassPassSucceedsIff | services/detector/src/main.py:732-741 | The restarts for changed global classes all succeed if and only if each has its model file and a model that loads or is held by another camera, with the paths that the restarts before it left |
| HotReload.MatchesUnique | services/detector/src/main.py:702-812 | A configuration in force determines the whole tracked state |
| HotReload.InPoolIff | services/detector/src/model_pool.py:48-83 | A model is in the pool if and only if some active camera uses its path |
| Supervisor.ModelPool.GetDetector | services/detector/src/model_pool.py:48-69 | Loads or shares the detector and counts the reference; a failed load changes nothing |
| Supervisor.ModelPool.Release | services/detector/src/model_pool.py:71-83 | Gives one reference back and unloads the model at zero; an untracked path is ignored |
| Supervisor.ModelPool.UpdateDefaults | services/detector/src/model_pool.py:85-102 | New defaults, and the same confidence and classes written into every loaded detector |
| Supervisor.Supervisor.StartCamera | services/detector/src/main.py:544-622 | The new state and whether the camera started, in all error branches |
| Supervisor.Supervisor.StopCamera | services/detector/src/main.py:624-634 | Forgets the camera and gives its model back; nothing for an unknown name |
| Supervisor.CameraState.Patch | services/detector/src/main.py:786-807 | Zones, rules, deterrent rules and confidence replaced in a running camera, the rest kept |
| Supervisor.Supervisor.NeedsRestart | services/detector/src/main.py:771-779 | Whether the effective model or the class filter differs from what the camera runs with |
| Supervisor.Supervisor.Restart | services/detector/src/main.py:780-784 | Stop followed by start, also when the start fails |
| Supervisor.Supervisor.ClassLoop | services/detector/src/main.py:732-741 | The pass over the cameras that rely on changed global classes |
| Supervisor.Supervisor.ListLoop | services/detector/src/main.py:761-807 | The pass over the new camera list: start, restart or patch, and the KeyError for a camera that was lost |
| Supervisor.Supervisor.StopLoop | services/detector/src/main.py:809-812 | Cameras that are no longer configured are stopped |
| Supervisor.Supervisor.StartAll | services/detector/src/main.py:636-637 | The start-up loop, from which the cold start is defined |
| Supervisor.Supervisor.OnConfigChange | services/detector/src/main.py:702-812 | The whole reload on the objects does what the specification function says, for some enumeration of the cameras |
| VisitTracker.SweepsUnobservableIff | services/detector/src/visit_tracker.py:40-139 | However detections of any keys and sweeps interleave, the sessions persisted for a key are the split of its own timestamps at gaps of the timeout or longer if and only if no sweep closed a session that the next detection would have extended |
| VisitTracker.SweepsUnobservable | services/detector/src/visit_tracker.py:40-139 | With clock readings in lock order the timing of sweeps cannot be observed |
| VisitTracker.EveryDetectionCounted | services/detector/src/visit_tracker.py:40-139 | The session counts of a key sum to its number of detections, in every run |
| VisitTracker.EarlySweepSplitsVisit | services/detector/src/visit_tracker.py:85-96 | For every camera, class and timeout, a sweep whose clock is ahead of the next detection splits a visit |
| VisitTracker.ProjectRun | services/detector/src/visit_tracker.py:40-119 | Each key behaves as if it were alone |
| VisitOrder.ListedByOpening | services/detector/src/visit_tracker.py:40-119 | In every run visits are listed, and so closed by a sweep, in the order of the detections that brought in their keys |
| VisitOrder.ClosedInOrder | services/detector/src/visit_tracker.py:85-139 | A sweep and a shutdown persist the visits they close in the order of the list |
| VisitTracker.RunsSplit | services/detector/src/visit_tracker.py:47-48 | The reference split is a split: nonempty runs that put the timestamps in order, without a long gap inside and with one between |
| VisitTracker.RunsUnique | services/detector/src/visit_tracker.py:47-48 | No other split has these properties |
| CompoundKeys.KeysEqualIff | services/detector/src/visit_tracker.py:42 | Two pairs of camera and class share a key if and only if they are equal or the longer camera name is the shorter one, a colon, and the front of the class that goes with the shorter |
| CompoundKeys.KeysAgree | services/detector/src/visit_tracker.py:42 | Without colons in camera names, or else without colons in class names, keys are equal if and only if camera and class are |
| CompoundKeys.KeysCollide | services/detector/src/visit_tracker.py:42 | With a colon, two different cameras and classes share a key |
| VisitPairs.PairSweepsUnobservableIff | services/detector/src/visit_tracker.py:40-139 | For a camera and a class that overlap with no other pair detected: the sessions persisted under the two names are the split of their own timestamps if and only if no sweep was early for them |
| VisitPairs.PairDetectionsCounted | services/detector/src/visit_tracker.py:40-139 | The session counts of such a pair sum to the number of its detections |
| VisitPairs.OverlapMerges | services/detector/src/visit_tracker.py:40-77 | Of two pairs that overlap, one takes in the detection of the other, which gets no session |
| VisitTracker.VisitTracker.RecordDetection | services/detector/src/visit_tracker.py:40-77 | Extends, opens, or closes and reopens the visit, and persists the one that ended |
| VisitTracker.VisitTracker.FindExpired | services/detector/src/visit_tracker.py:90-93 | Exactly the keys whose last detection is a timeout or more ago, in dict order |
| VisitTracker.VisitTracker.FlushExpired | services/detector/src/visit_tracker.py:79-119 | Closes and persists exactly the expired visits and leaves the others alone |
| VisitTracker.VisitTracker.FlushAll | services/detector/src/visit_tracker.py:121-139 | Closes and persists every visit |
| RecognitionBuffer.ExactlyOnce | services/notifier/src/recognition_buffer.py:98-198 | In every run each submitted detection is pending, or was dispatched once, or was replaced, and only one of these; replaced means that a later detection had its token; bare dispatches are not early and annotations carry the own token |
| RecognitionFates.DispatchedIff | services/notifier/src/recognition_buffer.py:98-198 | Told from the steps alone: an entry is dispatched annotated with a recognition, bare by a poll pass, or flushed, if and only if that is the first step after its submission that concerns it (a recognition or detection with its token, a poll pass at or after its deadline, a flush) |
| RecognitionFates.ReplacedIff | services/notifier/src/recognition_buffer.py:127-134 | It is replaced if and only if a later detection with its token comes first |
| RecognitionFates.PendingIff | services/notifier/src/recognition_buffer.py:98-198 | It is pending if and only if no such step has come |
| RecognitionFates.AnnotatedAtOnce | services/notifier/src/recognition_buffer.py:149-156 | A recognition that finds its detection waiting dispatches it at once |
| RecognitionBuffer.HeapIsSound | services/notifier/src/recognition_buffer.py:160-183 | Every pending entry is in the heap exactly once and nothing is there twice; after a poll pass nothing that is due is left, live or stale |
| RecognitionBuffer.ResolvedByDeadline | services/notifier/src/recognition_buffer.py:160-183 | The first poll pass at or after its deadline finds a detection dispatched or replaced |
| RecognitionBuffer.FlushLosesNothing | services/notifier/src/recognition_buffer.py:98-111 | After a stop with flush nothing is pending and every detection was dispatched exactly once or replaced |
| RecognitionBuffer.RunKeeps | services/notifier/src/recognition_buffer.py:98-198 | All of this holds after every step of every interleaving |
| RecognitionBuffer.RecognitionBuffer.SubmitDetection | services/notifier/src/recognition_buffer.py:113-136 | Without a token dispatched directly, otherwise filed under its token, over any earlier entry, and pushed on the heap |
| RecognitionBuffer.RecognitionBuffer.SubmitRecognition | services/notifier/src/recognition_buffer.py:138-158 | Takes the pending entry of its token and dispatches it annotated; dropped when there is none |
| RecognitionBuffer.RecognitionBuffer.Pop | services/notifier/src/recognition_buffer.py:166-174 | Stale entries are skipped by identity, live ones dispatched |
| RecognitionBuffer.RecognitionBuffer.PollPass | services/notifier/src/recognition_buffer.py:164-179 | Dispatches every due pending entry once in order of deadlines, and empties the heap of everything due |
| RecognitionBuffer.RecognitionBuffer.FlushAll | services/notifier/src/recognition_buffer.py:185-198 | Dispatches every pending entry once and empties both containers |
| RecognitionBuffer.RecognitionBuffer.Stop | services/notifier/src/recognition_buffer.py:98-111 | Flushes, or leaves the buffer as it is |
| FairLock.MutualExclusion | services/detector/src/fair_lock.py:29-65 | In every interleaving: at most one owner, held if and only if somebody owns the lock or has been handed it, waiters only while held, and the raise for an event that is neither queued nor set is never reached |
| FairLock.HandoffSurvivesTimeout | services/detector/src/fair_lock.py:44-56 | A thread that was handed the lock while timing out becomes the owner; one that withdraws was never granted |
| FairLock.GrantsFollowArrivals | services/detector/src/fair_lock.py:36-65 | Grants come in the order of arrival and everybody queued arrived after everybody granted |
| FairLock.GrantedWithinReleases | services/detector/src/fair_lock.py:36-65 | A waiter at index k that does not time out is granted within k + 1 releases |
| FairLock.QueueAdvances | services/detector/src/fair_lock.py:58-65 | While a waiter stays queued every release moves it forward |
| FairLock.PatientWaiterStays | services/detector/src/fair_lock.py:44-56 | A waiter that does not time out stays queued until it is granted |
| FairLock.FairLock.AcquireEnter | services/detector/src/fair_lock.py:36-43 | First critical section: owner at once, or last in the queue |
| FairLock.FairLock.AcquireSettle | services/detector/src/fair_lock.py:44-56 | Second critical section after a timeout: withdraw, or accept a handoff that came first |
| FairLock.FairLock.Release | services/detector/src/fair_lock.py:58-65 | Hands over to the first in the queue, or frees the lock |
| Scheduler.TelescopesIff | services/detector/src/scheduler.py:322-339 | For all a <= b <= c the transitions of (a, c] are those of (a, b] followed by those of (b, c], ties in order, if and only if both getters stay within their UTC day, its closing midnight included |
| Scheduler.FiresOnce | services/detector/src/scheduler.py:145-167 | Over every run of ticks with clock readings that never go back, with reconfigurations between them and in their middle, ticks that a getter aborts, the schedule switched on and off and whatever the rearm key does: what a schedule puts at an instant fires exactly once if a tick that sees this schedule enabled covers the instant, and nothing else fires at it |
| ScheduleFlag.FlagIsLastAction | services/detector/src/scheduler.py:145-216 | Over every run the armed flag is what the last action made it: an automatic rearm, or the last transition that a tick fired; without any it is as it was |
| ScheduleFlag.DailyFlag | services/detector/src/scheduler.py:145-167 | With fixed daily times, after a day of ticks and without requests, the alarm is armed if and only if the time of day lies in the cyclic interval from arming to disarming |
| ScheduleFlag.RearmsIff | services/detector/src/scheduler.py:171-241 | A tick rearms if and only if a request has come whose time is reached and that no later request and no earlier tick took away, and the schedule is off or its last transition of the past day, if any, was an arming |
| ScheduleFlag.PendingIff | services/detector/src/scheduler.py:171-197 | The key holds the last request until a tick at or after its time consumes it |
| ScheduleReads.AnsweredIff | services/detector/src/scheduler.py:243-257 | What a getter can answer while a reconfiguration assigns the fields that it reads: the answers of the old fields, of the new ones, and of the old time in the new zone or either latitude with either longitude; never of a new time in the old zone |
| ScheduleReads.AnswersAre | services/detector/src/scheduler.py:243-257 | What the getters answer undisturbed: sunrise and sunset of the place, or the two times in the zone, each only if it is set |
| ScheduleReads.InterruptedInDayIff | services/detector/src/scheduler.py:243-257 | All that an interrupted tick can see keeps to the UTC day if and only if the schedules of all these mixtures do |
| ScheduleReads.FixedTimesInDayIff | services/detector/src/scheduler.py:243-257 | Between two configurations with fixed times: if and only if both do, and the old times in the new zone do |
| ScheduleReads.TornRead | services/detector/src/scheduler.py:243-257 | Two schedules within their day of which an interrupted tick sees a third one that is not: 22:00 UTC, 06:00 New York, and 22:00 New York |
| ScheduleReads.RaisesIff | services/detector/src/scheduler.py:243-257 | A getter can find a time and then none, and raise, if and only if the time goes away and one of the configurations does not use the sun |
| Scheduler.TickIsStep | services/detector/src/scheduler.py:145-167 | The specification of the method, for a tick that is not interrupted, is the event of the runs |
| Scheduler.FiresInOrder | services/detector/src/scheduler.py:145-167 | Transitions fire in time order and never after the last tick |
| Scheduler.PollingUnobservable | services/detector/src/scheduler.py:145-167 | While one schedule is enabled, any ticks fire what one look at the whole interval lists |
| Scheduler.OneRearmPerRequest | services/detector/src/scheduler.py:171-216 | A rearm request is acted on at most once |
| Scheduler.RearmFollowsTicks | services/detector/src/scheduler.py:218-241 | After a day of ticks, a rearm may go ahead if and only if the last transition fired in the past 24 hours, if any, was an arming |
| Scheduler.NextIsHeadIff | services/detector/src/scheduler.py:342-359 | When getters stay within their UTC day, the next transition found is the first one listed up to the end of the third day if and only if one is listed or the third date puts nothing at the midnight that ends it |
| Scheduler.NextDiffers | services/detector/src/scheduler.py:342-359 | A schedule with a single transition, at that midnight: found, but not listed |
| Scheduler.NextIsHead | services/detector/src/scheduler.py:342-359 | So the two agree when no date schedules anything at the midnight that ends it |
| Scheduler.DailyTelescopesIff | services/detector/src/scheduler.py:276-281 | Fixed daily times survive polling if and only if both lie within the UTC day |
| Scheduler.SeenByTickIff | services/detector/src/scheduler.py:322-339 | Some tick of length w or less fires the arming, or the disarming, of a day if and only if its time is less than w outside that UTC day; so an evening time west of Greenwich is not fired by ticks a minute apart |
| Scheduler.DailyRearm | services/detector/src/scheduler.py:218-241 | For distinct daily UTC times, a rearm may go ahead if and only if the time of day lies in the cyclic interval from arming to disarming |
| Scheduler.TransitionsBetween | services/detector/src/scheduler.py:322-339 | The loop over dates with its stable sort computes the list that the theorems are about |
| Scheduler.NextTransitionAfter | services/detector/src/scheduler.py:342-359 | The loop over three days |
| Scheduler.ArmScheduler.ScheduleAllowsRearm | services/detector/src/scheduler.py:218-241 | Allowed when the schedule is off, when nothing is found, or by the last transition found |
| Scheduler.ArmScheduler.CheckPendingRearm | services/detector/src/scheduler.py:171-216 | The key is deleted before the schedule is asked; a failing Redis call or a malformed key changes nothing |
| Scheduler.ArmScheduler.Tick | services/detector/src/scheduler.py:145-167 | A tick without a reconfiguration in its middle fires what is due, moves the last tick also when disabled, and checks the rearm key |
| Scheduler.ArmScheduler.Configure | services/detector/src/scheduler.py:61-101 | A new schedule leaves the last tick and the armed flag alone |
| TimeSort.Unique | services/detector/src/scheduler.py:338 | A stably sorted list is determined by what it holds at each time and in which order |
| TimeSort.SortedAt | services/detector/src/scheduler.py:338 | Sorting keeps what is listed at each time, in order |
| TimeSort.SortedOrdered | services/detector/src/scheduler.py:338 | Sorting orders by time and keeps the length |
| RetryRuns.RetryBound | services/notifier/src/notification_queue.py:28-31 | For any interleaving of enqueues, worker steps and restarts, with any clock readings and saves that may fail: not counting sends whose result a restart did not find in the file, an entry is sent at most 148 times and delivered at most once, and one that waits has waited out the schedule of its failed retries, at most 147 |
| RetryRuns.CutOffBound | services/notifier/src/notification_queue.py:98-231 | When no save fails, an entry is sent at most 148 times plus once for every restart that cut off a pass which had been at it, and likewise delivered at most once plus that |
| RetryWaits.BackoffIs | services/notifier/src/notification_queue.py:28-29 | Every wait is 30 seconds, doubled with each failure, and ten minutes at most |
| RetryWaits.AttemptMakes | services/notifier/src/notification_queue.py:116-213 | In every state of a run: a new entry is due after 30 seconds; an attempt is one more send if the channel is enabled; after a failure the entry is given up if and only if it is 24 hours old, and waits the doubled time otherwise |
| RetryRuns.BoundIsReached | services/notifier/src/notification_queue.py:28-31 | A run without restarts that sends one entry 148 times |
| RetryRuns.RepeatingRun | services/notifier/src/notification_queue.py:200-231 | For every n, a run in which a process dies n times after a failed send and before the commit: n sends, and the entry is as at its first |
| RetryRuns.NothingLost | services/notifier/src/notification_queue.py:116-231 | Arrival order, at most 500 entries, and every entry is queued or has left: delivered, given up, dropped, removed by mistake or not found by a restart; between passes not both |
| RetryRuns.LeavesOnly | services/notifier/src/notification_queue.py:66-231 | The ways out of the queue: a commit after a delivery, after giving up at an age of 24 hours or more, or by mistake; an enqueue, for the oldest of 500; a restart with an unreadable file or no copy young enough |
| RetryRuns.CommitTakes | services/notifier/src/notification_queue.py:223-231 | A commit removes every queued entry that the pass delivered or gave up, and an undecided one if and only if fewer undecided equals come before it than equals on the removal list were pushed out of the queue |
| RetryRuns.LosesIff | services/notifier/src/notification_queue.py:223-231 | A commit loses some undecided entry if and only if such an entry is queued and an equal one on the removal list was pushed out |
| RetryRuns.LosingRun | services/notifier/src/notification_queue.py:116-231 | A run that loses an entry: the oldest of 500 is delivered, an equal one enqueued with the clock set back pushes it out, and the commit takes the new one, which was never sent |
| RetryRuns.PromptNeverLoses | services/notifier/src/notification_queue.py:116-231 | With enqueues that read the clock less than 30 seconds behind the pass, no run loses an entry, equal entries or not |
| CommitAndRestart.RemoveAllIff | services/notifier/src/notification_queue.py:226-228 | Removing entries one after the other, each by equality, keeps exactly those with at least as many equals before them as equals are removed |
| CommitAndRestart.Twins | services/notifier/src/notification_queue.py:159-228 | At a commit, an entry with the fields of one to be removed is to be removed too, or came during the pass |
| RetryRuns.RestartFinds | services/notifier/src/notification_queue.py:66-106 | A restart finds exactly the entries of the file that are at most a day old; when no save has failed, that is every queued entry of that age, with its current fields unless the pass cut off had been at it |
| RetryRuns.RunKeeps | services/notifier/src/notification_queue.py:66-231 | Every step of every run keeps the invariant, restarts included |
| NotificationQueue.FailedPaced | services/notifier/src/notification_queue.py:199-213 | A retry that fails in time still fits the schedule: 147 steps of it are the most that fit in a day |
| NotificationQueue.ElapsedValue | services/notifier/src/notification_queue.py:28-29 | The closed form of the sum of the capped backoff steps |
| RetryQueue.NotificationQueue.constructor | services/notifier/src/notification_queue.py:59-96 | A new process holds what the file has that is at most a day old, or nothing |
| RetryQueue.NotificationQueue.Load | services/notifier/src/notification_queue.py:73-77 | The entries of the file that are young enough, in order |
| RetryQueue.NotificationQueue.Save | services/notifier/src/notification_queue.py:98-106 | Writes the fields of the queued entries in order; a failure leaves the file |
| RetryQueue.NotificationQueue.Enqueue | services/notifier/src/notification_queue.py:116-143 | Appends a new entry and saves; the oldest is dropped when there are 500 |
| RetryQueue.NotificationQueue.Look | services/notifier/src/notification_queue.py:159-164 | The snapshot holds the due entries in order |
| RetryQueue.NotificationQueue.Try | services/notifier/src/notification_queue.py:180-200 | One entry is skipped, or delivered, or has its attempts counted up |
| RetryQueue.NotificationQueue.Settle | services/notifier/src/notification_queue.py:201-213 | After a failure the entry is given up or put off |
| RetryQueue.NotificationQueue.Remove | services/notifier/src/notification_queue.py:226-228 | The first entry with equal fields goes, if there is one |
| RetryQueue.NotificationQueue.Commit | services/notifier/src/notification_queue.py:223-231 | All removals of a pass, and the save |
| RetryQueue.WorkedIsRun | services/notifier/src/notification_queue.py:151-231 | What the method below does after the snapshot is a run of the worker's steps to the end of the pass |
| RetryQueue.NotificationQueue.ProcessDue | services/notifier/src/notification_queue.py:151-231 | The phases after each other, when nothing else runs |
| Doorbell.NeverLosesIff | services/doorbell-firmware/src/button.py:61-84 | For any number of flushers and presses in any interleaving, a press leaves the queue only after the host answered that very press or pushed out by 16 newer ones, if and only if no two presses are equal |
| DoorbellReplies.LeavesHeard | services/doorbell-firmware/src/button.py:68-84 | For distinct presses, a press that left the queue was pushed out by 16 newer ones, or the host answered a flusher that was posting this very press with a status code below 500 |
| DoorbellReplies.AnsweredIff | services/doorbell-firmware/src/button.py:68-84 | A press counts as answered if and only if such a reply came |
| DoorbellReplies.FailedReply | services/doorbell-firmware/src/button.py:68-84 | No answer, or a code of 500 or more, leaves the queue as it is and ends the flusher |
| DoorbellReplies.GoodReply | services/doorbell-firmware/src/button.py:68-84 | After any other answer the next turn of the flusher takes out the head it posted |
| DoorbellReplies.EveryPressTaken | services/doorbell-firmware/src/button.py:102-109 | What the queue is the rest of is what was restored and then every press of the run, in order, however full the queue was |
| DoorbellReplies.RestoredIsLast | services/doorbell-firmware/src/button.py:41-50 | A restart finds the last 16 presses of the file |
| Doorbell.PopsOwn | services/doorbell-firmware/src/button.py:74-78 | A commit pops only the press that its own flusher posted and had answered |
| Doorbell.QueueIsSuffix | services/doorbell-firmware/src/button.py:41-113 | The queue is always what was pressed last, in press order, and at most 16 presses |
| Doorbell.Collision | services/doorbell-firmware/src/button.py:61-84 | Two equal presses and a late flusher: the second press is lost unanswered |
| Doorbell.RunDelivers | services/doorbell-firmware/src/button.py:61-84 | The invariant behind the first row, over runs |
| Doorbell.PressQueue.OnPress | services/doorbell-firmware/src/button.py:102-109 | Appends; a full deque loses its head |
| Doorbell.PressQueue.Peek | services/doorbell-firmware/src/button.py:64-67 | Reads the head under the lock |
| Doorbell.PressQueue.Answer | services/doorbell-firmware/src/button.py:68-84 | Which answers let the press go |
| Doorbell.PressQueue.Commit | services/doorbell-firmware/src/button.py:74-78 | Pops the head if it equals the posted press |
| Doorbell.AcceptedIff | services/doorbell-firmware/src/button.py:61-84 | The presses that a lone flusher gets rid of are those before the first answer that is missing or 500 or more |
| Doorbell.PressQueue.Flush | services/doorbell-firmware/src/button.py:61-84 | A flusher that runs alone drops the presses up to the first one that is not accepted |
| RateLimiter.AtMostTwice | shared/rate_limit.py:25-77 | However clients interleave, with late or failed EXPIREs and lost replies: at most capacity requests per lifetime of the key and at most 2 * capacity - 1 in any half-open interval of window length pass by their count |
| RateLimiter.BoundIsReached | shared/rate_limit.py:28-31 | For every capacity and every window of two units or more a run of successful checks reaches 2 * capacity - 1 |
| RateLimiter.LostExpireNeverRecovers | shared/rate_limit.py:56-66 | The key gets stuck without a lifetime if and only if an EXPIRE fails or the reply to the first INCR is lost; then at most capacity more requests ever pass |
| RateLimiter.KeysEqualIff | shared/rate_limit.py:54 | Two scopes with their principals share a counter if and only if they are equal or the longer scope is the shorter one, a colon, and the front of the principal that goes with the shorter |
| RateLimiter.KeysApart | shared/rate_limit.py:54 | Different scopes and principals have different counters if scopes contain no colon |
| RateLimiter.KeysCollide | shared/rate_limit.py:54 | Two different scopes and principals with one counter |
| RateLimiter.StaysStuck | shared/rate_limit.py:56-66 | A stuck key stays stuck and only counts up |
| RateLimiter.CheckIsRun | shared/rate_limit.py:37-77 | A check acts on its key as the events of the model do and passes when they do |
| RateLimiter.RateLimiter.Check | shared/rate_limit.py:37-77 | Result and new key for every combination of failures, an INCR whose reply is lost included; other keys stay as they are; refusals carry a positive delay |
| CameraHealth.OneAlertPerOutage | services/detector/src/camera_health.py:86-118 | An outage gets one offline alert if some check finds it going on for the threshold or longer, and none otherwise |
| CameraHealth.RecoveryFollowsOffline | services/detector/src/camera_health.py:125-146 | Every recovery alert comes right after an offline alert, so two recoveries have one between them |
| CameraHealth.RecoveredIff | services/detector/src/camera_health.py:125-146 | A check reports a recovery if and only if the last alert was an offline alert and the camera has been up without an outage for the threshold; with the true length of the last outage |
| CameraHealth.OfflineIff | services/detector/src/camera_health.py:100-117 | A check reports a camera offline if and only if its current outage has lasted for the threshold and no check before found so; with the true length so far and the number of outages before |
| CameraHealth.StampsAreTrue | services/detector/src/camera_health.py:73-84 | The two other stamps are the last failure and the begin of the last outage |
| CameraHealth.RecordIsTrue | services/detector/src/camera_health.py:45-84 | The record (since when down or up, reconnects, last outage length) agrees with the outages read off the frames and failures alone |
| CameraHealth.ExactlyOneSince | services/detector/src/camera_health.py:45-84 | From the first frame or failure on exactly one of offline_since and online_since is set, and neither before |
| CameraHealth.SentIffOverdue | services/detector/src/camera_health.py:100-108 | The flag for a sent alert is set if and only if a check found the current outage overdue |
| CameraHealth.ProjectRun | services/detector/src/camera_health.py:45-194 | What the tracker knows and says about a camera depends on its own events since it was last removed |
| CameraHealth.CameraHealthTracker.RecordFrame | services/detector/src/camera_health.py:45-71 | One record changes as the specification says, new cameras included |
| CameraHealth.CameraHealthTracker.RecordFailure | services/detector/src/camera_health.py:73-84 | One record changes as the specification says, with the debounce |
| CameraHealth.CameraHealthTracker.CheckAlerts | services/detector/src/camera_health.py:86-147 | Every camera gets its own alerts and nobody else does; offline alerts come first |
| CameraHealth.CameraHealthTracker.RemoveCamera | services/detector/src/camera_health.py:191-194 | One camera is forgotten |
| CameraHealth.CameraState.Frame | services/detector/src/camera_health.py:48-71 | Reconnection: duration, count, and what is kept for the recovery alert |
| CameraHealth.CameraState.CheckOffline | services/detector/src/camera_health.py:100-117 | The offline alert and its flags |
| CameraHealth.CameraState.CheckRecovered | services/detector/src/camera_health.py:126-141 | The recovery alert and its flags |
| Clipper.CoverageIff | services/clipper/src/main.py:151-162 | Whatever the alignment of the event with the segments, the listed segments cover the time from event - pre to event + post if and only if pre + post + lateness fits into all but two segments of the ring |
| Clipper.ClipHasIff | services/clipper/src/main.py:160-162 | A clip has no more than it asks for: a complete segment is in it if and only if it is still there, ended a segment length before the clip begins or later, and began by its end |
| Clipper.Overwritten | services/clipper/src/settings.py:22-27 | Otherwise an event right before the end of a segment loses its beginning |
| Clipper.ClipInOrder | services/clipper/src/segmenter.py:103-113 | The segments come in the order in which they were recorded |
| Clipper.ReadTime | services/clipper/src/main.py:152-158 | The ring is read one segment length after the window, plus the time the worker was late |
| Clipper.SegmentsInWindow | services/clipper/src/segmenter.py:86-113 | The filtering loop and the sort; unreadable files and other entries are skipped |
| Clipper.ListsTheWindow | services/clipper/src/segmenter.py:86-113 | Exactly the .ts files with a time in the window, in time order |
| Evaluator.CountClass | services/detector/src/evaluator.py:297-325 | Per class: tp counts the snapshots whose object is found, tp + fn the labels and tp + fp the predictions of the class |
| Evaluator.ComputeMetrics | services/detector/src/evaluator.py:285-338 | These counts for exactly the labelled classes |
| Evaluator.EverySnapshotCounts | services/detector/src/evaluator.py:294-321 | tp + fn over all classes sums to the number of compared snapshots |
| Evaluator.Matched | services/detector/src/evaluator.py:308-312 | Whether some prediction overlaps by half or more |
| Evaluator.IouIsScore | services/detector/src/evaluator.py:399-409 | For all boxes, reversed ones included: symmetric, between 0 and 1, and 1 if and only if the boxes are equal and have an area |
| BoxCells.IouIsShare | services/detector/src/evaluator.py:399-409 | For proper boxes the score is the number of unit cells in both, divided by the number in either |
| BoxCells.MatchesIff | services/detector/src/evaluator.py:399-409 | So two boxes match if and only if they share half of the cells of either or more, and score 0 if and only if they share none |
| BoxCells.ClassesIff | services/detector/src/evaluator.py:285-300 | Scores are computed for the classes that some label has, and no others |
| BoxCells.SharesOfHits | services/detector/src/evaluator.py:327-328 | Precision is the share of predictions that hit, recall the share of labels that are hit |
| Evaluator.F1Between | services/detector/src/evaluator.py:327-329 | Precision and recall lie in [0, 1] and F1 between them |
| Evaluator.F1Formula | services/detector/src/evaluator.py:327-329 | F1 is 2tp / (2tp + fp + fn), so it is 1 if and only if nothing is missed or invented |
| Publisher.EveryEventAccounted | services/detector/src/publisher.py:35-55 | Whatever fails, every event was sent once, or waits, or was pushed out |
| Publisher.InOrder | services/detector/src/publisher.py:35-55 | Sent and then waiting events are in order of arrival; at most 256 wait |
| Publisher.SendsUpToFailure | services/detector/src/publisher.py:35-55 | A publish sends, oldest first, what waits and then its own event, up to the first failure |
| Publisher.LostOnlyWhenFull | services/detector/src/publisher.py:43-49 | An event is pushed out only by a publish whose first send fails while 256 wait |
| Publisher.CatchesUp | services/detector/src/publisher.py:51-55 | One publish without a failure leaves nothing waiting |
| Publisher.RedisPublisher.FlushBuffer | services/detector/src/publisher.py:51-55 | The deque loses exactly what was sent before the first failure |
| Publisher.RedisPublisher.Publish | services/detector/src/publisher.py:35-49 | The deque after a publish |
| SecretBox.RoundTripIff | shared/secret_box.py:213-260 | Decrypting after encrypting succeeds and restores the configuration if and only if every sensitive string has no prefix yet or is its own decryption |
| SecretBox.RoundTripWithoutPrefixIff | shared/secret_box.py:213-260 | For a cipher whose tokens are longer than their plaintexts: if and only if no sensitive string has the prefix yet |
| SecretFields.EncryptedField | shared/secret_box.py:213-235 | By name: nonempty plaintext in the two Tuya fields and the five fields of a channel becomes its token after the prefix enc:v1:, and every other field stays as it is |
| SecretFields.DecryptedField | shared/secret_box.py:238-260 | By name: those fields with the prefix become what their tokens decrypt to, and every other field stays |
| SecretFields.CountIsNumber | shared/secret_box.py:213-260 | The count is the number of fields converted |
| SecretBox.NothingElseChanges | shared/secret_box.py:213-235 | With the sensitive strings blotted out, an encrypted configuration equals the original |
| SecretBox.NoPlaintextLeft | shared/secret_box.py:263-278 | After encryption no sensitive string is plaintext |
| SecretBox.EncryptingTwice | shared/secret_box.py:94-104 | Encrypting again changes nothing |
| SecretBox.DecryptUndoes | shared/secret_box.py:94-124 | The round trip of one string |
| SecretBox.MappedComposes | shared/secret_box.py:213-260 | Two passes over the sensitive strings are one pass |
| SecretBox.MappedSecret | shared/secret_box.py:213-260 | A pass reaches every sensitive string |
| SecretBox.CountZeroIff | shared/secret_box.py:213-235 | Nothing is counted if and only if nothing is to be done |
| SecretBox.WalkIsMap | shared/secret_box.py:193-210 | Walking down a path changes its leaf and nothing else |
| SecretBox.GetsSecret | shared/secret_box.py:184-190 | Reading down a path finds the sensitive string |
| SecretBox.Config.EncryptInPlace | shared/secret_box.py:213-235 | The walk amounts to encrypting every sensitive string at once, and returns their number |
| SecretBox.Config.DecryptInPlace | shared/secret_box.py:238-260 | Succeeds if and only if every encrypted field can be decrypted, and then decrypts them all |
| SecretBox.Config.HasPlaintextSecrets | shared/secret_box.py:263-278 | True if and only if some sensitive string is not encrypted |

## Left out

- RTSP, OpenCV, ffmpeg, YOLO and face recognition: foreign code, present only as success or failure of a frame, a load or a segment.
- HTTP, SMTP and Redis transport, web routes, templates and scripts: input and output.
- SQLite: a persisted visit is an entry of a log; failed inserts, and the order of inserts from different threads, are not modelled.
- Cryptography: the cipher is a pair of functions that undo each other. Keys and their files are not modelled.
- Time zones and sunrise: the two getters of a schedule are arbitrary functions from dates to instants; where their reads matter, the zone and sun tables are arbitrary functions.
- Log messages, and rounding of reported numbers: durations and scores are exact.
- Configuration reload: stream address, armed flag, cooldown, frame skip, the known channels and groups, the snapshot grabber, the schedule, and camera threads with their statistics.
- Supervisor.OnConfigChange: each start draws its answers from an oracle; that two looks at the same file in one reload agree is not assumed. An effective model path that is empty counts as a file that does not exist.
- VisitTracker: timestamps are integers; records appear in the log in the order in which their visits are closed under the lock.
- RecognitionBuffer.RecognitionBuffer.Pop: the heap is a bag that yields some entry of least deadline; its array layout, and which of two equal deadlines comes first, are left open.
- RecognitionBuffer.RecognitionBuffer.Stop: the time limit for joining the worker; exceptions of the dispatch callback.
- FairLock: a wait may time out at any moment, so lengths of timeouts do not appear; the measured waiting time is not returned; only the owner releases.
- Scheduler.ArmScheduler.Tick: runs as a whole. A reconfiguration in its middle, and a later clock reading for the rearm check, are in the events of Scheduler.FiresOnce; callbacks that raise are like callbacks that return.
- ScheduleReads.AnsweredIff: at most one reconfiguration comes during one call of a getter; time zone and sun tables do not raise. A rearm check whose getters raise deletes the key and rearms nothing, like one that finds a disarming.
- NotificationQueue: a file cut off while it is written counts as one that cannot be read; the process dies between two steps or in the middle of a failure, not within other statements.
- RetryRuns.RetryBound: a send that raises has not delivered; one that delivers and then raises is counted as failed and sent again.
- Doorbell.NeverLosesIff: the queue file, which is only read at the start, and retries inside one post.
- RateLimiter.RateLimiter.Check: the commands of one check run without others in between; interleavings are in the events of RateLimiter.AtMostTwice. Replies of INCR that are not numbers or negative.
- RateLimiter.AtMostTwice: requests let through because Redis failed are not counted; eviction and deletion of keys by others.
- CameraHealth.CameraHealthTracker.CheckAlerts: the order of alerts within each of the two loops.
- CameraHealth: the status report of all cameras.
- Clipper.CoverageIff: the recording began before the clip does and ffmpeg does not restart within it; the supervisor's restart delays.
- Evaluator.ComputeMetrics: the averages over classes, and the order of classes in the report.
- Publisher.RedisPublisher.Publish: signing and serialisation; a send that raises has not sent.
- SecretBox.Config.Convert: what an exception leaves half converted.
- SecretBox.Config.EncryptInPlace: configurations in which two places share one dictionary.
- Rule matching, settings parsing, stoplight thresholds, role checks and clamps: readable from one branch each.
