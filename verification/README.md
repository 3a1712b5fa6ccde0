# netix-backend: verified model of the stateful core

This project models the parts of netix-backend whose correctness depends on whole runs, and proves their
properties with Dafny 4.11. `dafny verify dfyconfig.toml` checks everything.

| module | what it models |
|---|---|
| `RequestTimeout` | the ASGI request ceiling: one capped request answered once, by the app, a 504 or a 503 |
| `ChangeHistory` | the on-row audit trail, under the base model's `updated_on` layer |
| `ActorScope` | the actor and reason bindings stamped onto audit entries |
| `Retry`, `DeadlineRetry`, `StaticService` | the transport retry loop and its async twin, the whole-loop deadline, the helpers that retry over a retrying transport |
| `Registration`, `Discovery` | the registration and heartbeat threads, the discovery cache |
| `MachineKeys` | org-prefixed machine keys |
| `ErrorMessages`, `SentryFilters` | the consistent-envelope flattener, the exception walk and the event filters |

How the concurrent parts are modelled. The ceiling, the registration threads and the discovery cache are
transition systems. One event is one stretch of code between two awaits, or one step between two points where
another thread can run, or one thing the environment does. `Step` gives the state after an event and leaves
the state alone when the event is not enabled, so `Run` over an arbitrary sequence of events ranges over every
interleaving, and each theorem about `Run` holds for all of them. The classes beside them (`Middleware`,
`Process`, `Cache`, `HistoryRow`, `ActorBinding`) update their fields as the source does. Each method of the
first four takes the object from one state that satisfies the module's invariant, `Valid()`, to another by the
corresponding `Step`, and says what that means for its caller. In `RequestTimeout` handing a message to the server's
`send` and the message reaching the wire are two events, because a server may wait for its write buffer in
between; the proof of wire safety uses that `started` is set before the first of them, and that the check of
the flags and the mute are one event.

What the environment supplies. Outcomes of sends are arbitrary streams, random samples arbitrary reals in
[0, 1], clock readings arbitrary reals, the error renderer an arbitrary function. Seconds are reals. JSON
numbers and booleans share one constructor, as Python's `==` identifies `True` with `1`.

Assumptions, where a theorem has them. The server does not cancel a call of the ceiling, accepts messages in
the order they were handed over, and the app sends its response start first (the ASGI HTTP specification,
"Response Start - send event"); `FirstMessageDecides` shows what happens otherwise. Tracked columns exist and are
not filled in by the ORM itself, `update_fields` is passed by keyword and names real columns, a new instance is saved in full, the row
has one live instance, and nothing assigns the trail directly. `time.sleep` suspends at least as long as
asked; `StuckClockOversleeps` shows that a monotone clock without that is not enough.

Where the code is not what its documentation says, the model follows the code:

- `normalize_reason` promises that a reason is never stored untrimmed. It trims before it cuts, so a cut at a
  space leaves that space. `ReasonIsTrimmedExactlyWhen` gives the exact condition, `CutLeavesSpace` such a text.
- `NormalizeIsIdempotentExactlyWhen` shows that normalizing twice differs in exactly the same case.
- A history cap is said to limit the trail to the newest entries. It does for caps of at least one. A cap of zero
  keeps every entry, and a negative cap keeps none (`TrailForOtherCaps`, `CapLimitsExactly`).
- Negative organization ids do not round-trip through `org_key` (`RoundTripExactly`), and re-homing such a key
  nests the prefixes (`RehomingReplacesExactly`).

Properties that hold only under a condition come with the condition made exact, or with the run that breaks it:
a partial refresh (`PartialRefreshExactly`, `AbsorbedEditIsLost`), a failed save (`FailedSaveExactly`,
`OrphanIsStored`), a reset that races a registration (`ResetIsSafeExactly`, `RacingResetGivesTwo`) or a refresh
(`ResetForgetsExactly`, `StaleAfterRacingReset`), refreshes that overlap (`StaysWholeExactly`,
`FieldsCanComeFromDifferentFetches`), the two retry loops (`LoopsAgree`, `NegativeBudgetDisagrees`).

In the backoff lemmas `Cap(factor, n)` is `factor * 2^n` (`CapIsPower`), so `Cap(factor, n) - factor` is
`factor * (2^n - 1)` (`GeometricForm`), and `Times(n, limit)` is `n * limit` (`TimesIsProduct`).

## Model

| member | source | states |
|---|---|---|
| RequestTimeout.WireSafety | netix_backend/asgi/timeout.py:94-177 | in every interleaving each call's wire holds a prefix of the app's messages, or of the 504 pair, or of the 503 pair, never a mix; a replied call that returned sent the pair in full; without a reply nothing is withheld |
| RequestTimeout.NeverStartedAndAbandoned | netix_backend/asgi/timeout.py:100-105 | `started` and `abandoned` are never both true, and no status line of the app precedes a 504, for any app |
| RequestTimeout.AtMostOneStatusLine | netix_backend/asgi/timeout.py:143-177 | at most one response start reaches the wire per call |
| RequestTimeout.AnsweredInFull | netix_backend/asgi/timeout.py:143-177 | a call that has returned was answered by the renderer's whole pair, or by an app that has finished and from which nothing was withheld |
| RequestTimeout.HungAppIsAnswered | netix_backend/asgi/timeout.py:158-177 | from every reachable state a watched call whose app has sent nothing can be brought to its complete 504 without any further step of the app |
| RequestTimeout.ShedRequestIsAnswered | netix_backend/asgi/timeout.py:149-155 | a shed call can be brought to its complete 503 |
| RequestTimeout.FinishedAppReturns | netix_backend/asgi/timeout.py:158-169 | a call whose app finished in time returns at its next step, unabandoned, whether or not its time is up |
| RequestTimeout.ShedExactly | netix_backend/asgi/timeout.py:143-157 | a request is shed exactly when it is HTTP, its method is capped and not exempt, and at least `max_abandoned` requests are pooled; the first stretch sets nothing else |
| RequestTimeout.TreatmentIsDecidedOnArrival | netix_backend/asgi/timeout.py:143-157 | in every run, what a call is treated as is decided for good by the pool it meets on arrival |
| RequestTimeout.AnsweredInTimeStaysAnswered | netix_backend/asgi/timeout.py:160-169 | a response that has started, or an app that finished unabandoned, is never turned into a 504 later |
| RequestTimeout.FirstMessageDecides | netix_backend/asgi/timeout.py:100-105 | in a run whose app sends one message before the time is up, the wire holds that message and then the start of the 504 if it is not a response start, and that message alone if it is |
| RequestTimeout.OverloadBound | netix_backend/asgi/timeout.py:149-172 | with at most K calls in progress, abandoned plus watched sheddable requests never exceed `max_abandoned` - 1 + K |
| RequestTimeout.LoadGrowsOnlyByAdmission | netix_backend/asgi/timeout.py:149-158 | only the admission of a capped request adds to that load, it adds that request alone, and it needs room in the pool |
| RequestTimeout.PoolIsExact | netix_backend/asgi/timeout.py:179-190 | the pool holds exactly the abandoned requests whose done callback has not run |
| RequestTimeout.SheddingStops | netix_backend/asgi/timeout.py:179-190 | from every reachable state, finishing the pooled tasks empties the pool, and the next request is not shed |
| RequestTimeout.Middleware.Begin | netix_backend/asgi/timeout.py:143-157 | the stretch up to the first await: shed exactly on a full pool, and at most this call is added to the owed work |
| RequestTimeout.Middleware.Send | netix_backend/asgi/timeout.py:100-105 | the muting send: an abandoned app hands nothing over, and a status line handed over settles the call for good |
| RequestTimeout.Middleware.Deliver | netix_backend/asgi/timeout.py:105 | the server takes over exactly the oldest message, and the wire of a call whose app starts first stays safe |
| RequestTimeout.Middleware.Wake | netix_backend/asgi/timeout.py:158-172 | one step from the check to the mute: a call is abandoned and pooled exactly when its app has neither started nor finished, never both started and abandoned; an app that starts first has then sent nothing |
| RequestTimeout.Middleware.ReplyNext | netix_backend/asgi/timeout.py:174-177 | a call that returns from its reply, its app starting first, has put exactly the whole pair on the wire |
| RequestTimeout.Middleware.LateFinish | netix_backend/asgi/timeout.py:184-190 | the done callback frees exactly one place in the pool |
| ChangeHistory.ReplayReconstructs | netix_backend/django/change_history.py:312-324 | after every run from creation, replaying the complete log gives each tracked field's stored value; a field absent from the log is stored empty |
| ChangeHistory.TrailIsLastEntries | netix_backend/django/change_history.py:315-319 | for a cap of at least one the stored trail is exactly the last entries of the complete log |
| ChangeHistory.TrailForOtherCaps | netix_backend/django/change_history.py:316-319 | in every run from creation, a cap of zero leaves the whole log in the trail and a negative cap leaves nothing |
| ChangeHistory.CapLimitsExactly | netix_backend/django/change_history.py:316-319 | every run keeps the newest entries, at least the last and at most `cap` of them, none dropped early, exactly when the cap is at least one or nothing is tracked |
| ChangeHistory.SnapshotIsStored | netix_backend/django/change_history.py:326-344 | in every reachable state the snapshot is the stored tracked values and the in-memory trail the stored trail |
| ChangeHistory.SyncedBaseline | netix_backend/django/change_history.py:326-344 | re-baselining moves a field's baseline exactly when the save wrote the field |
| ChangeHistory.SaveRecordsExactly | netix_backend/django/change_history.py:391-414 | a save records a tracked field, once and in the whitelist's order, exactly when it changes its stored value, with the two stored values; an entry is added exactly when there is such a field |
| ChangeHistory.CreateRecords | netix_backend/django/change_history.py:376-399 | the creating save records every non-empty tracked field, from nothing, in the whitelist's order, with the bound actor and its time |
| ChangeHistory.EmptyExactly | netix_backend/django/change_history.py:394-399 | what counts as empty there is null, the empty text, list and mapping; zero and false are recorded |
| ChangeHistory.EntriesAreStamped | netix_backend/django/change_history.py:376-389 | in every run, each entry of the log carries the actor and the time of the one save that appended it |
| ChangeHistory.CreateWrites | netix_backend/django/models.py:80-94 | the creating save stores every column of the instance and stamps both timestamps |
| ChangeHistory.NoBaselineNoEntry | netix_backend/django/change_history.py:400-403 | an instance without a baseline records nothing, and its first save gives it one for the written fields |
| ChangeHistory.SaveWrites | netix_backend/django/models.py:82-94 | an update leaves in the row the requested columns and a new `updated_on`, every other column as it was, `created_on` included, and a new trail exactly when an entry was added |
| ChangeHistory.RequestedColumn | netix_backend/django/change_history.py:312-324 | a column is written exactly when it was asked for, by name or attribute name, or the row is new |
| ChangeHistory.PendingEditIsRecordedWhenWritten | netix_backend/django/change_history.py:326-344 | an edit left out of any number of partial saves stays pending and is recorded by the save that writes it, against the value stored before |
| ChangeHistory.ChangesChain | netix_backend/django/change_history.py:405-414 | along every run's log, the old value of a change is the new value of the previous change to that field |
| ChangeHistory.FirstChangeStartsEmpty | netix_backend/django/change_history.py:394-414 | the first change to a field starts from an empty value |
| ChangeHistory.DeletedAndRestoredAlternate | netix_backend/django/change_history.py:416-421 | with a boolean tracked `is_deleted`, consecutive `deleted` and `restored` entries of every run from creation differ |
| ChangeHistory.LastFlagIsStored | netix_backend/django/change_history.py:416-421 | in every run from creation those entries alternate, and the last one agrees with the stored flag |
| ChangeHistory.UpdateAction | netix_backend/django/change_history.py:416-421 | an update is named after the flag exactly when it changes the stored flag, and carries the bound actor |
| ChangeHistory.FlagActionMeans | netix_backend/django/change_history.py:416-421 | `deleted` is a change to anything but an empty value, zero and false, `restored` a change to one of these |
| ChangeHistory.SoftDeleteRecordsDeleted | netix_backend/django/models.py:107-110 | soft-deleting a live row stores the flag and appends exactly one entry, `deleted` by the bound actor |
| ChangeHistory.SoftDeleteLeavesOthers | netix_backend/django/models.py:107-110 | a soft delete leaves an edit of any other column pending: neither row nor instance changes there |
| ChangeHistory.PartialRefreshExactly | netix_backend/django/change_history.py:303-310 | a partial refresh keeps the baseline honest exactly when no tracked edit is pending outside it |
| ChangeHistory.AbsorbedEditIsLost | netix_backend/django/change_history.py:303-310 | otherwise the edit is stored by the next full save and never recorded |
| ChangeHistory.ReloadRestores | netix_backend/django/change_history.py:303-310 | a full refresh brings back the stored values and trail, and no save has anything to record afterwards |
| ChangeHistory.EntryExactly | netix_backend/django/change_history.py:391-414 | an entry is built exactly when a new row tracks anything, or an existing one has a pending edit of a tracked field that the save writes |
| ChangeHistory.FailedSaveExactly | netix_backend/django/change_history.py:312-324 | after a failed write instance and row agree exactly when there was nothing to record in that sense, or the cap is negative |
| ChangeHistory.OrphanIsStored | netix_backend/django/change_history.py:312-324 | otherwise, for a cap of at least two, the next full save stores the failed save's entry in the row, before its own and without a place in the log |
| ChangeHistory.HistoryRow.SetField | netix_backend/django/models.py:109 | an assignment changes the instance alone, and keeps the invariant of snapshot, row, trail and log |
| ChangeHistory.HistoryRow.HistoryValues | netix_backend/django/change_history.py:354-362 | the loop collects the tracked values |
| ChangeHistory.HistoryRow.Save | netix_backend/django/models.py:88-94 | the outer layer keeps the invariant: afterwards the snapshot, the trail and the replayed log agree with the row |
| ChangeHistory.HistoryRow.SaveTrail | netix_backend/django/change_history.py:312-324 | the trail layer, step by step, is the specified save |
| ChangeHistory.HistoryRow.SyncSnapshot | netix_backend/django/change_history.py:326-344 | the new baseline is the specified one |
| ChangeHistory.HistoryRow.RefreshFromDb | netix_backend/django/change_history.py:303-310 | a full refresh takes values and trail from the row, leaves the row alone and re-baselines |
| ChangeHistory.HistoryRow.SoftDelete | netix_backend/django/models.py:107-110 | assignment of the flag, then a save of the flag alone |
| ActorScope.ActorBinding.Exec | netix_backend/django/change_history.py:141-174 | for every program of nested blocks, saves, exceptions and handlers: the binding on exit is the one on entry, and each save carries the actor its enclosing blocks determine lexically |
| ActorScope.ActorBinding.SetActor | netix_backend/django/change_history.py:125-127 | binds, and returns a token for the previous binding |
| ActorScope.ActorBinding.ResetActor | netix_backend/django/change_history.py:130-138 | restores the token's binding, clears when the token is foreign or absent, and raises without a change when it was used before |
| ActorScope.StampThroughBlock | netix_backend/django/change_history.py:141-174 | running a body under the actor a block binds is running it inside the block |
| ActorScope.ReasonBlocksKeepIdentity | netix_backend/django/change_history.py:160-174 | reason blocks never change who a save is attributed to |
| ActorScope.InnermostBlockDecides | netix_backend/django/change_history.py:120-174 | the block entered last decides: an actor block everything, a reason block the reason alone; outside every block the system acts without a name |
| ActorScope.NormalizedReason | netix_backend/django/change_history.py:75-83 | a stored reason is the text without the white space around it, cut to 256 characters; a blank or absent one is empty |
| ActorScope.ReasonIsTrimmedExactlyWhen | netix_backend/django/change_history.py:75-83 | a normalized reason is trimmed exactly when the cut does not end at a space |
| ActorScope.NormalizeIsIdempotentExactlyWhen | netix_backend/django/change_history.py:75-83 | normalizing again changes nothing in exactly the same case |
| ActorScope.CutLeavesSpace | netix_backend/django/change_history.py:75-83 | 255 letters, a space and a letter are stored with the space at the end, and normalize differently again |
| Retry.SendWithRetries | netix_backend/http/retry.py:190-213 | the loop ends at the first final or out-of-budget attempt, gives its outcome, and leaves the policy's trace of sends, releases and sleeps |
| Retry.AsendWithRetries | netix_backend/http/retry.py:215-238 | the async loop meets the same contract |
| Retry.RunsAgree | netix_backend/http/retry.py:190-238 | that contract fixes every output, so both loops make the same decisions |
| Retry.ResultIsLast | netix_backend/http/retry.py:190-213 | a run returns a response or raises an error exactly as its last attempt did |
| Retry.RetryableExactly | netix_backend/http/retry.py:69-85 | worth retrying are transient errors, and 408, 429 and 5xx answers to GET, HEAD and OPTIONS in any case or with the opt-in |
| Retry.SendBudget | netix_backend/http/retry.py:190-213 | at most max(retries, 0) + 1 sends, fewer only after a final outcome |
| Retry.DiscardedClosedOnce | netix_backend/http/retry.py:202-211 | each discarded response is released exactly once, the returned one never |
| Retry.CloseComesBeforeSleep | netix_backend/http/retry.py:208-213 | the release directly follows the send and comes before the sleep, which is the delay that outcome calls for |
| Retry.NonIdempotentNeverResentAfterResponse | netix_backend/http/retry.py:81-85 | without the opt-in a non-idempotent request is resent only after errors without any response |
| Retry.JitterBand | netix_backend/http/retry.py:88-91 | a jittered delay lies between half of and all of the exponential cap |
| Retry.JitterIsEven | netix_backend/http/retry.py:88-91 | the delay is spread evenly over that band |
| Retry.CapIsPower | netix_backend/http/retry.py:90 | the cap is the factor times a power of two |
| Retry.HeaderIsObeyed | netix_backend/http/retry.py:94-112 | a header delay in range is used as given, clamped otherwise; after an unreadable header or an error the delay is jittered |
| Retry.JitteredTotal | netix_backend/http/retry.py:190-213 | without headers n retries sleep between half of and all of factor * (2^n - 1) |
| Retry.GeometricForm | netix_backend/http/retry.py:88-91 | that limit in closed form |
| Retry.PrescribedTotal | netix_backend/http/retry.py:148-152 | with headers on any subset the total is at most factor * (2^n - 1) plus one header limit per header |
| Retry.RunSleepBound | netix_backend/http/retry.py:190-213 | a whole run sleeps within the limit its retry budget gives |
| DeadlineRetry.RequestWithinDeadline | netix_backend/http/retry.py:335-374 | which attempts are made, with which timeouts and sleeps, and what the loop returns or raises |
| DeadlineRetry.SleepsBackOff | netix_backend/http/retry.py:366-369 | each sleep is the smaller of the jittered backoff and the remaining time, so it is positive for a positive factor and within the exponential cap |
| DeadlineRetry.AttemptsAreCapped | netix_backend/http/retry.py:324-332 | each of the four timeouts of an attempt is the smaller of the configured one and what remains at its start |
| DeadlineRetry.LeavesOnlyWhenDone | netix_backend/http/retry.py:348-369 | short of a final outcome the loop gives up only when its budget or its time is used up |
| DeadlineRetry.VerdictMeans | netix_backend/http/retry.py:370-374 | it returns the latest response of all attempts, raises an error only when none was answered or the error was final, and reports the deadline exactly when nothing was attempted |
| DeadlineRetry.Limit | netix_backend/http/retry.py:320-321 | the smaller of the configured limit and the remaining budget |
| DeadlineRetry.NothingOutlivesTheDeadline | netix_backend/http/retry.py:320-369 | for every clock no attempt starts at or after the end, and timeouts and single sleeps fit in what remains |
| DeadlineRetry.TotalSleepWithinDeadline | netix_backend/http/retry.py:348-369 | all requested sleeps together fit in the deadline |
| DeadlineRetry.StuckClockOversleeps | netix_backend/http/retry.py:366-369 | on a clock that ignores sleeping they need not |
| DeadlineRetry.ReturnsByTheEnd | netix_backend/http/retry.py:348-374 | if attempts keep to their capped timeouts and sleeps are exact, the loop is back by the end time |
| DeadlineRetry.LoopsAgree | netix_backend/http/retry.py:352-374 | with a deadline that never bites both loops send equally often and differ exactly when the last attempt raised after an earlier retryable response, which the deadline loop then returns |
| DeadlineRetry.NegativeBudgetDisagrees | netix_backend/http/retry.py:352-374 | with a negative budget the transport loop sends once and the deadline loop not at all |
| StaticService.StaticUpload | netix_backend/http/static.py:121-139 | which call decides, with the last attempt's error when none does, and the wire sends and sleeps made |
| StaticService.StaticFetch | netix_backend/http/static.py:159-179 | the same for downloads |
| StaticService.Call | netix_backend/http/static.py:87-92 | one call through the retrying transport |
| StaticService.NestedBound | netix_backend/http/static.py:51-54 | n helper retries over m transport retries make at most (n+1)(m+1) sends, at most n+1 over the default transport |
| StaticService.NestedBoundIsTight | netix_backend/http/static.py:51-54 | a download with n retries that meets 503 throughout sends exactly (n+1)(m+1) requests and ends with its last attempt's error |
| StaticService.NoAttemptsExactly | netix_backend/http/static.py:139 | the "made no attempts" error occurs exactly for a negative budget |
| StaticService.UploadSucceedsExactly | netix_backend/http/static.py:125-129 | an upload succeeds exactly when its last call was accepted with 200 or 201 and carries a link |
| StaticService.UploadRepeatsExactly | netix_backend/http/static.py:125-138 | an upload call is followed by another exactly after a transient error, a 408, a 429 or a 5xx, within the budget |
| StaticService.UploadEndsExactly | netix_backend/http/static.py:121-139 | the result for every outcome of an upload's last call |
| StaticService.FetchEndsExactly | netix_backend/http/static.py:159-179 | the result for every outcome of a download's last call |
| StaticService.FetchSucceedsExactly | netix_backend/http/static.py:163-167 | a download succeeds exactly when its last call was answered 200, and returns that answer |
| StaticService.FetchRepeatsExactly | netix_backend/http/static.py:163-178 | a download call is followed by another exactly after a transient error, a 408, a 429 or a 5xx, within the budget |
| StaticService.MissingFileIsNotRetried | netix_backend/http/static.py:168-169 | a 404 ends the download at once |
| Registration.SupersededEventsAreSet | netix_backend/asgi/registration.py:61-66 | in every interleaving every stop event but the current one is set, and between resets one call latches at most |
| Registration.SupersededHeartbeatEnds | netix_backend/asgi/registration.py:125-133 | a heartbeat that captured an earlier event sends at most one more PUT |
| Registration.OneHeartbeat | netix_backend/asgi/registration.py:136-162 | with resets only when nothing is in flight, at most one un-stopped heartbeat exists and at most one thread is started between resets |
| Registration.HeartbeatGoesOn | netix_backend/asgi/registration.py:125-133 | in every run an un-stopped heartbeat stays so until a reset begins or it finds the service unconfigured |
| Registration.EveryIntervalSends | netix_backend/asgi/registration.py:125-133 | from every reachable state k further intervals of a live waiting heartbeat are exactly k further PUTs |
| Registration.ServiceComesUp | netix_backend/asgi/registration.py:147-162 | an enabled trigger with nothing latched leads to a live heartbeat and a PUT in each of its intervals |
| Registration.UnconfiguredNeverBeats | netix_backend/asgi/registration.py:147-154 | a process that is disabled or never configured starts no heartbeat in any run |
| Registration.ResetIsSafeExactly | netix_backend/asgi/registration.py:61-66 | a reset keeps every continuation with quiet resets at one un-stopped heartbeat or none exactly when it finds no registration in flight |
| Registration.RacingResetGivesTwo | netix_backend/asgi/registration.py:61-66 | from every reachable state with a registration in flight, a reset and one more trigger lead to two un-stopped heartbeats |
| Registration.Process.Trigger | netix_backend/asgi/registration.py:153-160 | the locked latch: an enabled call wins exactly when no call since the last reset has |
| Registration.Process.StartHeartbeat | netix_backend/asgi/registration.py:136-144 | the new loop lives exactly when the interval is positive and no reset is under way; no other loop is affected |
| Registration.Process.WaitOver | netix_backend/asgi/registration.py:125-128 | a loop that is superseded or unconfigured ends here without another PUT; a live and configured one goes on to send |
| Registration.Process.PutOnce | netix_backend/asgi/registration.py:129-133 | one PUT, after which the loop waits again and is as live as before |
| Registration.Process.ResetBegin | netix_backend/asgi/registration.py:63-65 | no heartbeat lives afterwards, and the next trigger can latch |
| Registration.Process.ResetEnd | netix_backend/asgi/registration.py:66 | the event installed is unset and captured by no heartbeat, so none comes back to life |
| Discovery.FetchesAreSpaced | netix_backend/discovery.py:65-75 | since the last reset one fetch ran inline, and any n launches in a row span at least n-1 cache periods |
| Discovery.FieldsComeFromFetches | netix_backend/discovery.py:60-62 | in every run, whatever the resets race, each published field is empty or what some successful fetch returned |
| Discovery.SuccessfulRefreshPublishes | netix_backend/discovery.py:60-62 | an undisturbed refresh publishes both fields of what it fetched and gives the lock back |
| Discovery.FailedRefreshEnds | netix_backend/discovery.py:60-62 | a failed one changes neither field nor when the next fetch is due, and gives the lock back |
| Discovery.ResetForgetsExactly | netix_backend/discovery.py:93-96 | after a reset both fields hold only what was fetched since, in every continuation up to the next reset, exactly when no refresh waits with urls or origins and none half way with origins |
| Discovery.StaleAfterRacingReset | netix_backend/discovery.py:93-96 | a run from the start in which an earlier fetch shows after the reset |
| Discovery.ApartFetchesStayWhole | netix_backend/discovery.py:60-75 | in every run that launches no refresh beside an unfinished one, and resets no half-published one that holds origins of its own, both fields come from one fetch, or are empty, whenever no publication is half way |
| Discovery.StaysWholeExactly | netix_backend/discovery.py:60-96 | that condition is exact step by step: from every state of such a run, a step that breaks it, and no other, can be followed to fields from different fetches |
| Discovery.PromptFetchesStayWhole | netix_backend/discovery.py:65-75 | refreshes that end within `CACHE_SECONDS` of their launch, with no reset beside one, meet the condition, so both fields come from one fetch |
| Discovery.FieldsCanComeFromDifferentFetches | netix_backend/discovery.py:60-62 | a run from the start that leaves the two fields from two different fetches |
| Discovery.OutageKeepsFields | netix_backend/discovery.py:60-62 | while every fetch fails both fields keep their last known values |
| Discovery.Cache.Lookup | netix_backend/discovery.py:65-75 | the first lookup since a reset refreshes inline; a later one launches a refresh exactly when a cache period has passed since the last launch |
| Discovery.Cache.FetchReturned | netix_backend/discovery.py:60-62 | the return of a fetch, failed or not, changes neither field |
| Discovery.Cache.PublishUrls | netix_backend/discovery.py:62 | the first store: a map some fetch returned, the origins untouched |
| Discovery.Cache.PublishOrigins | netix_backend/discovery.py:62 | the second: origins some fetch returned, the urls untouched, and the lock free again |
| Discovery.Cache.Reset | netix_backend/discovery.py:93-96 | everything is forgotten, for good exactly when nothing was left to store |
| MachineKeys.MatchIsSpelling | netix_backend/cloning.py:24 | the greedy match finds exactly the spelled prefix, digits and base, so a name has one reading |
| MachineKeys.OwnerAndBaseInvert | netix_backend/cloning.py:35-49 | `key_owner` and `base_key` take `org_key` apart |
| MachineKeys.RoundTripExactly | netix_backend/cloning.py:41-54 | a key is recognised as its organization's exactly for non-negative ids |
| MachineKeys.LeadingZerosAreRead | netix_backend/cloning.py:24-49 | leading zeros in a key change neither its owner nor its base |
| MachineKeys.RehomingReplacesExactly | netix_backend/cloning.py:41-43 | re-homing replaces the prefix exactly when the previous id is not negative |
| MachineKeys.KeysEqualExactly | netix_backend/cloning.py:41-43 | for ids of either sign, two keys are equal exactly when organizations and base keys are |
| MachineKeys.FixedExactly | netix_backend/cloning.py:41-54 | for ids of either sign, a name is its own key exactly when it is that key without leading zeros |
| MachineKeys.BaseIsIdempotentExactly | netix_backend/cloning.py:35-38 | a second prefix is taken off exactly when the base is itself a key |
| ErrorMessages.MessagesAreRenderedLeaves | netix_backend/django/exceptions.py:155-181 | for every nested detail the accumulator walk is collect-then-render |
| ErrorMessages.RenderPathAppend | netix_backend/django/exceptions.py:157-165 | how a segment extends a rendered path: generic keys and leaf indices never show, nothing shows before the first real key |
| ErrorMessages.OneMessagePerLeaf | netix_backend/django/exceptions.py:166-169 | exactly one message per leaf that is neither null nor empty |
| ErrorMessages.SampleMessages | netix_backend/django/exceptions.py:155-169 | the messages of a nested validation error with generic keys, silent leaves and a list of records |
| SentryFilters.ExceptionChainText | netix_backend/observability/sentry_filters.py:76-85 | the walk ends on every finite graph, at the chain's end or its first repeated object |
| SentryFilters.WalkIsLongestRepeatFree | netix_backend/observability/sentry_filters.py:76-85 | what it returns is the longest repeat-free prefix of the chain |
| SentryFilters.LinkedAlongCauses | netix_backend/observability/sentry_filters.py:76-85 | each step of the walk goes to the cause, and to the context where there is no cause |
| SentryFilters.RunChain | netix_backend/observability/sentry_filters.py:199-215 | the loop over the filters is the recursive composition |
| SentryFilters.ChainRuns | netix_backend/observability/sentry_filters.py:199-215 | every filter gets the event the one before handed on, a raising filter being passed over; the result is the last event, or the first drop |
| SentryFilters.NestedChainsFlatten | netix_backend/observability/sentry_filters.py:199-215 | nested chains equal the flat one, also with raising filters |
| SentryFilters.RulesAgree | netix_backend/observability/sentry_filters.py:167-177 | any list of rules keeps an existing fingerprint, otherwise sets that of the first matching rule that has one, and never drops the event |
| SentryFilters.MatchesExactly | netix_backend/observability/sentry_filters.py:167-177 | a rule matches when any of its signatures stands anywhere in the text |

## Left out

- HTTP, sockets, JSON encoding, CORS headers, logging, real clocks and real randomness: they are inputs.
- NaN in a `Retry-After` value passes the source's clamp: delays are reals here.
- `RequestTimeoutMiddleware` under cancellation of its own call by the server, and sends that raise.
- Django's database layer: a row is a map from column to value. Failed saves, several live instances of one row, tracked names that are not columns, deferred tracked fields and positional save arguments are outside the run theorems; a partial refresh and a failed save have their exact conditions above.
- Display labels and the inner coercions of `json_safe`: values are as already coerced.
- `ChangeActor.from_user` and the request middleware around it: an actor block carries the flattened user.
- `register`'s own retry ladder: only that it returns matters to the thread protocol.
- `start_heartbeat` called from outside the registration thread: it is public, and such a caller adds a heartbeat of its own.
- The three stores of `reset_discovery_cache` are one step: a refresh that publishes between two of them is not modelled.
- Unicode digits and `None` names in machine keys, Unicode whitespace in reasons, and non-ASCII method names: ASCII only, and `None` is the empty string as in the source.
- Python's `set` and other leaves in error details are leaves with their text; `__bool__` overrides on exceptions are not modelled.
- `group_log_events_by_template`, the drop filters and the assembly of an event's text: an event is its joined text here.
- `stamp_and_update`, the other model shapes, the other flatteners, views, settings factories, HTTP client wiring and telemetry set-up: they would only add one-branch facts.
