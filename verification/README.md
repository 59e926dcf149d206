# Pulse Notify, modelled and verified in Dafny

The project models the concurrent core of Pulse Notify, a notification platform written in Go: the worker
pool that consumes an offset log, its retry loop, the rate limiter, the notifications table, the cached
notification lists and the rotation of refresh tokens. Each part that interleaves with others is a step
system: one action is one blocking point of one goroutine or one round trip of one call, an action carries
every choice the program does not make itself (what the broker, Redis, Postgres, the provider or a `select`
answers), and a run is any sequence of enabled actions. Beside each step system stands a class whose methods
update fields and arrays in place, each proved against the step it performs. The theorems are about all
reachable states or all runs.

| files | what they model |
|---|---|
| `Retry.dfy` | `deliverWithRetry`: the loop, its 64-bit attempt budget and its 64-bit backoff |
| `PoolProtocol.dfy`, `PoolSafety.dfy`, `PoolTheorems.dfy`, `PoolAnswers.dfy`, `PoolRedelivery.dfy`, `Pool.dfy` | the dispatcher, the workers, the offsets, crashes and restarts |
| `Repository.dfy` | the notifications table and `ListByUser` |
| `Pipeline.dfy`, `PipelineTheorems.dfy`, `PipelineOutcomes.dfy`, `PipelineRedelivery.dfy` | Enqueue, the log, the pool and the table together |
| `KeyStore.dfy` | Redis keys with an expiry |
| `RateLimit.dfy` | the limiter middleware over `IncrWithWindow` |
| `ListCache.dfy`, `ListCacheTheorems.dfy`, `NotificationService.dfy` | the cache-aside notification lists |
| `RefreshTokens.dfy`, `RefreshTokenTheorems.dfy`, `RefreshTokenChains.dfy`, `AuthService.dfy` | refresh-token rotation |

## What the code does not keep of its documentation

Where code and documentation disagree the model follows the code, shows the disagreement with a concrete run
or input, and proves when the documented property does hold.

- "A crash mid-processing re-delivers the message" (README.md:205-206) holds of every run exactly with one
  worker (`CrashRedeliversIffOneWorker`). With N workers each crash loses at most N-1 messages
  (`AtMostConcurrencyLessOneLostPerCrash`), N-1 is reached (`LossIsReached`), and what is lost is handled in no
  continuation (`LostForGoodIff`). Conversely, graceful sessions whose commits all take effect handle no message
  twice in every run exactly with one worker (`GracefulRedeliversNothingIffOneWorker`).
- "Offsets commit only after the terminal state is persisted" (README.md:205-206) holds at a commit exactly if some
  write of the event's outcome has taken effect by then (`CommitsTerminalIffWritten`); a failed write is committed
  all the same (`FailedWriteIsCommitted`). If no write ever fails, only what a crash has lost or may yet lose is
  pending below a committed offset (`PendingBelowIsLost`).
- "Terminal state" (internal/worker/pool.go:119) is not final: a sent row can turn into a failed one after a crash
  (`SentRowTurnsFailed`) as well as after a graceful restart without any crash (`GracefulRestartTurnsSentFailed`). An
  event's row is final exactly when the offsets have passed the event and no worker can write it or move them back
  before it (`OutcomeIsFinalIff`). Within a session each row is written at most once (`WrittenOncePerSession`).
- "So all of a user's notifications keep ordering" (internal/events/producer.go:31): keyed by user they keep the order
  of the log, and are completed in that order in every run exactly with one worker (`UserOrderIffOneWorker`).
- "On first increment, applies an expiry window" (internal/cache/redis.go:89-91): the expiry is renewed by every
  increment. The limiter decides like a fixed window exactly inside the window opened by the first request of a
  burst (`MatchesFixedWindowIff`), is never more permissive (`CodedIsStricter`), and bounds every sliding window
  (`SlidingWindowBound`).
- "Each refresh invalidates the presented token" (README.md:207-208): the error of the Delete is ignored
  (internal/service/auth.go:111), so a Refresh that overlaps with nothing can leave two live tokens of one chain
  (`FailedDeleteForksChain`); the chain stays at one exactly if the Delete takes effect or the token has expired by
  then (`ChainStaysSingleIff`). And two overlapping refreshes both obtain a pair (`OverlapPaysTwice`). A token is safe
  from reuse exactly when it is spent (`NeverFoundAgainIffSpent`), and from further pairs exactly when moreover no
  running call has used it (`NeverPaidAgainIff`).
- "Deleting known limits keeps reads fresh" (internal/service/notification.go:120): later reads of a key are fresh
  exactly when no live entry and no reader on its way to the cache holds an older list (`FreshIffAlwaysFresh`). A
  clean Enqueue makes that so at 20, 50 and 100 (`CleanEnqueueFreshensKnownLimits`) and changes nothing at any other
  limit (`OtherLimitsStayStale`, `OtherLimitMissesWrite`). A reader that straddles the Enqueue leaves an older list even
  at those three (`StraddlingReaderMissesWrite`).
- The backoff (internal/worker/pool.go:157) doubles for 37 attempts only (`BackoffExactIff`) and vanishes from
  attempt 57 on (`BackoffZeroIff`).

## Assumptions about what surrounds the code

- Kafka: a partition belongs to one process for a session and hands out consecutive offsets from the committed
  one; a commit writes the message's offset plus one whatever was there before, or fails; `Publish` appends its
  event at most once and may report a failure although it did. A fetch may fail at any time. Only the plain step
  bound of the shutdown needs that a fetch on a cancelled context fails; the theorem counts such fetches.
- Redis: single commands and the transaction of `IncrWithWindow` are atomic, any command may fail with or without
  effect, an entry is gone once its full time to live has elapsed, and the server's clock does not run backwards.
- Postgres: one statement is one step; row ids are fresh; equal creation times leave the order of a listing open.
- The topic: only Enqueue writes events to it; anybody may write messages that no worker can read.
- Kafka's hash balancer sends one key to one partition.
- Configuration: the theorems about rows take a positive attempt budget (internal/config/config.go:84-87, and
  `HonestIffBudgetPositive` for the rest); those about the pool alone take any 64-bit maxRetries.
- Generated refresh tokens are new. Go's `int` has 64 bits.

## Model

| member | source | states |
|---|---|---|
| Retry.DeliverWithRetry | internal/worker/pool.go:142-166 | for every int64 maxRetries and every behaviour of Send and the context, the answer is the first attempt at which the loop had to stop, the number of attempts is the number of Send calls with their results in order, and the waits taken are the backoffs of the attempts that were waited out |
| Retry.OutcomeIsUnique | internal/worker/pool.go:142-166 | that promise leaves one answer for each behaviour of the environment |
| Retry.PhasesRefineLoop | internal/worker/pool.go:144-164 | the blocking points at which the pool interleaves a worker reach exactly the answer of the loop |
| PoolAnswers.AnswersAreTheLoops | internal/worker/pool.go:117-134 | in every run of the pool, the answer a worker comes to persist is the one of the retry loop for the cancellations and Send results this worker met for this job, attempt by attempt, and its attempts are its Send calls |
| Retry.HonestIffBudgetPositive | internal/worker/pool.go:142-166 | "no error" means the last Send succeeded, for every environment, exactly when 0 <= maxRetries < 2^63-1; an error short of the budget happens only after cancellation |
| Retry.BackoffExactIff | internal/worker/pool.go:157 | the int64 wait equals 100 ms doubled per attempt exactly for attempts up to 37, and is smaller beyond |
| Retry.BackoffZeroIff | internal/worker/pool.go:157 | the wait is zero exactly from attempt 57 on |
| Retry.TotalBackoffIsGeometricIff | internal/worker/pool.go:156-162 | the first n waits add up to 100 ms * (2^n - 1) exactly for n up to 37 and fall short beyond |
| Retry.UncancelledWait | internal/worker/pool.go:144-165 | an uncancelled delivery that returns at attempt a has waited 100 ms * (2^(a-1) - 1), exactly for a up to 38 |
| PoolSafety.StepKeepsInv | internal/worker/pool.go:46-137 | every step of the dispatcher, a worker, a producer, a crash or a restart keeps the pool's invariant: gapless fetching, one message in the dispatcher, latest job per worker, completion once, commits that speak for completed jobs |
| PoolSafety.Outlived | internal/worker/pool.go:117-136 | some worker finished a job whose commit passed the lost message that w holds, and whatever lost message that worker holds is later than both |
| PoolSafety.LatestFinisherHoldsNothingLost | internal/worker/pool.go:117-136 | the worker that finished the latest-fetched job an offset speaks for holds no lost message |
| PoolSafety.LostNowBound | internal/worker/pool.go:46-97 | the running session's messages below their committed offset whose persist has not returned number at most N-1 over all partitions together, and none once Run has returned |
| PoolSafety.LossBound | internal/worker/pool.go:46-137 | in any state the messages below the committed offsets that nobody has handled number at most N-1 for each crash and N-1 for the running session |
| PoolTheorems.AtMostConcurrencyLessOneLostPerCrash | internal/worker/pool.go:60-91 | over any number of sessions each crash loses at most N-1 messages, a returned Run none of its own, graceful restarts none at all, and the message a returned session fetched and did not handle is not passed by a commit, so it is fetched again |
| PoolTheorems.UnhandledStaysAhead | internal/worker/pool.go:77-89 | after Run has returned only the last fetched message can be unhandled, and the committed offset has not passed it |
| PoolTheorems.BoundIsReached | internal/worker/pool.go:46-137 | for every concurrency N some crash-free run has exactly N-1 messages that a crash at that point loses |
| PoolRedelivery.NotHandledAgainIffBehind | internal/worker/pool.go:93-137 | from any reachable state, no run handles a message of the log, for the first time or again, exactly if the committed offset has passed it and every worker with a message of its partition holds a later one, or that very one with only the commit left |
| PoolRedelivery.NeverHandledIff | internal/worker/pool.go:93-137 | a message of the log is handled in no continuation exactly if moreover it has not been handled |
| PoolRedelivery.LostForGoodIff | README.md:205-206 | after a crash, a message of the log is handled in no continuation exactly if it is among the lost ones |
| PoolRedelivery.LossIsReached | internal/worker/pool.go:46-137 | for every concurrency N some run with one crash leaves exactly N-1 messages that no continuation handles |
| PoolTheorems.NothingAtRiskIffOneWorker | internal/worker/pool.go:46-137 | in every state of every run no unhandled message lies below a committed offset, exactly when there is one worker |
| PoolRedelivery.CrashRedeliversIffOneWorker | README.md:205-206 | after a crash at any point of any run, every message of the log has been handled or is handled in some continuation, exactly when there is one worker |
| PoolRedelivery.GracefulRedeliversNothingIffOneWorker | internal/worker/pool.go:168-179 | over sessions without a crash whose commits all take effect, no message is handled twice in any run, exactly when there is one worker |
| PoolTheorems.ReturnMeansDrained | internal/worker/pool.go:77-90 | when Run returns, the completed jobs are exactly the handed-off ones, once each, at most one fetched message was not handed over, all workers have exited; nobody sends on or closes a closed channel |
| PoolTheorems.NeverStuck | internal/worker/pool.go:46-97 | in every reachable state before the return some step can be taken, or the pool is idle with nothing to fetch and nobody asking it to stop |
| PoolTheorems.WorkersMeetAnything | internal/worker/pool.go:99-179 | in every reachable state the model lets Send, the database, the broker and the backoff's select answer either way, ruling out only a cancellation before its time |
| PoolTheorems.DispatcherMeetsAnything | internal/worker/pool.go:61-85 | in every reachable state a fetch may fail or find what is next, and an offer may go to any idle worker, or be given up exactly once cancelled |
| PoolTheorems.StepUsesUp | internal/worker/pool.go:61-91 | after cancellation every step of the pool decreases a measure of what is left to do, but for a fetch that still succeeds |
| PoolTheorems.ShutdownTerminates | internal/worker/pool.go:61-91 | after cancellation the pool takes at most (N+1)(3B+4)+3 steps, B being the attempts allowed,, plus 3B+5 for each fetch that still succeeds, and where it cannot move Run has returned |
| PoolAnswers.CancelledPoolStopsSending | internal/worker/pool.go:144-162 | in every continuation of a cancelled session only the calls of Send that were running return, one for each worker inside Send and so at most N; no new one is made |
| PoolTheorems.FailuresDoNotStopThePool | internal/worker/pool.go:61-85 | without a cancellation no number of failed fetches, writes or commits stops the pool, and every fetched message is completed, offered or in a worker's hands |
| PoolTheorems.BoundedOvertaking | internal/worker/pool.go:77-79 | when a worker is handed a message, at most N-1 earlier ones are unfinished |
| PoolTheorems.FetchOrderIffOneWorker | internal/worker/pool.go:50-56 | messages are completed in fetch order in every run exactly when there is one worker |
| PoolTheorems.OneWorkerKeepsLogOrder | internal/worker/pool.go:50-56 | with one worker the messages of one partition complete in log order |
| Pool.Pool.constructor | internal/worker/pool.go:31-43 | at least one worker whatever the configured concurrency, any int64 maxRetries, everything idle, fetching from the committed offsets |
| Pool.Pool.FetchReturns | internal/worker/pool.go:63 | performs the fetch step on the cursor array and offers the message |
| Pool.Pool.FetchFails | internal/worker/pool.go:64-75 | performs the failed-fetch step: leave the loop on a cancelled context or error, else pause |
| Pool.Pool.PauseEnds | internal/worker/pool.go:70-74 | performs the step back to fetching |
| Pool.Pool.HandOff | internal/worker/pool.go:77-78 | performs the hand-over to an idle worker |
| Pool.Pool.DropOnCancel | internal/worker/pool.go:79-84 | performs the step that gives the offered message up on cancellation |
| Pool.Pool.CloseChannel | internal/worker/pool.go:87 | performs the closing of the jobs channel |
| Pool.Pool.WaitEnds | internal/worker/pool.go:88-90 | performs the return of Run once all workers have exited |
| Pool.Pool.Parse | internal/worker/pool.go:100-117 | performs the parse step: a poison message or bad id goes straight to the commit, an event into the retry loop |
| Pool.Pool.CheckContext | internal/worker/pool.go:145-147 | performs the context check at the head of an attempt: a cancelled worker goes on to persist the attempts made before, with the context's error; any other sends |
| Pool.Pool.SendReturns | internal/worker/pool.go:149-156 | performs the step after Send |
| Pool.Pool.BackoffEnds | internal/worker/pool.go:158-162 | performs either case of the backoff's select |
| Pool.Pool.PersistReturns | internal/worker/pool.go:119-134 | performs the step after the database write, whether or not it failed |
| Pool.Pool.CommitReturns | internal/worker/pool.go:168-179 | performs the commit on the offsets array, last write wins, or its logged failure |
| Pool.Pool.WorkerExits | internal/worker/pool.go:94-96 | performs the exit of a worker that sees the closed channel |
| Pool.Pool.StartProcess | internal/events/consumer.go:16-32 | a new process forgets everything but the committed offsets and fetches from them |
| Pool.Execute | internal/worker/pool.go:46-137 | the object follows the step system along every schedule and stays reachable, so it loses at most N-1 messages for each crash and the running session |
| Repository.NotificationRepository.Create | internal/repository/notification.go:25-37 | inserts exactly one row, with the given content, pending, without attempts and created now, and leaves the others alone |
| Repository.NotificationRepository.MarkSent | internal/repository/notification.go:78-89 | the row is sent with the given attempts, no error and sent_at now, whatever its status was; its content, its creation and all other rows stay; no row, no change |
| Repository.NotificationRepository.MarkFailed | internal/repository/notification.go:92-103 | the row is failed with the given attempts and error, whatever its status was; sent_at, its content, its creation and all other rows stay; no row, no change |
| Repository.WritesAdvance | internal/repository/notification.go:25-103 | no write changes a row's content, returns it to pending or clears sent_at |
| Repository.ListingContains | internal/repository/notification.go:56-64 | a listing leaves out a row only if at least `limit` other rows of the user are no older |
| Repository.ListingIsTheNewest | internal/repository/notification.go:56-64 | without equal creation times a listing has exactly the `limit` newest rows of the user, each where as many newer ones stand before it |
| Repository.InsertedIsListedFirst | internal/repository/notification.go:25-64 | a row created after all others of its user is first in every listing |
| Repository.ListingExists | internal/repository/notification.go:56-64 | every table has a listing for every user and limit |
| Pipeline.StepKeepsInv | internal/service/notification.go:42-73 | every step of an Enqueue, a worker or a stranger on the topic keeps rows, log and deliveries consistent |
| Pipeline.RowShape | internal/worker/pool.go:117-134 | in every reachable state pending rows are untouched, sent rows have 1 to maxRetries+1 attempts, no error and sent_at, failed rows 0 to maxRetries+1 attempts and fewer only with the error of a cancelled context, and sent_at is set exactly if the row was once sent |
| Pipeline.RowsNeverGoBack | internal/repository/notification.go:77-103 | along every run rows keep their content, never return to pending and keep sent_at set, over redeliveries and crashes |
| Pipeline.PipelineConservation | internal/service/notification.go:48-67 | logged events describe distinct existing rows, a sent row's own event was accepted by a Send, and a row whose event is not in the log is pending with no attempts |
| PipelineOutcomes.WriteRecordsAttempts | internal/worker/pool.go:117-134 | in every run, a write that takes effect records as attempts the Sends its worker made for this job, as error the reason of the last one or the cancellation, as sent_at the clock at the write, and changes nothing else |
| PipelineOutcomes.PublishedIsLogged | internal/service/notification.go:53-67 | an event that the broker takes stands at the end of its partition with the content of its row |
| Pipeline.FailedPublishStaysPending | internal/service/notification.go:63-67 | the row of an event the broker turned down stays as it was inserted, pending with no attempts, along every run |
| PipelineTheorems.PendingIffUnwritten | internal/worker/pool.go:119-134 | along every run a pending row is still pending exactly if no write of its outcome took effect |
| PipelineTheorems.CommitsTerminalIffWritten | README.md:205-206 | at each commit of every run, crashes and redeliveries included, the event's row has left pending exactly if some write of its outcome took effect, and always if no write ever failed |
| PipelineTheorems.PendingBelowIsLost | README.md:205-206 | if no write fails, the events pending below a committed offset are among the lost ones, hence at most N-1 for each crash and the running session, and none of a returned one |
| PipelineTheorems.CommittedMeansTerminal | README.md:205-206 | in particular, after graceful sessions without a failed write every event below a committed offset has left pending |
| PipelineTheorems.FailedWriteIsCommitted | internal/worker/pool.go:126-136 | a concrete run in which a write fails, the offset is committed and the row stays pending |
| PipelineTheorems.WrittenOncePerSession | internal/worker/pool.go:119-134 | between two starts of the process each row is written at most once |
| PipelineRedelivery.SentRowTurnsFailed | internal/repository/notification.go:92-103 | a concrete run in which a crash redelivers a sent event and the second delivery turns its row into a failed one |
| PipelineRedelivery.GracefulRestartTurnsSentFailed | internal/worker/pool.go:168-179 | a concrete run without a crash: a commit fails, Run returns, and the next session turns the sent row into a failed one |
| PipelineRedelivery.OutcomeIsFinalIff | internal/worker/pool.go:117-137 | from any reachable state the row of a logged event is never written, for the first time or again, and so stays as it is, exactly if the committed offset has passed the event and every worker with a message of its partition holds a later one, or that very one with only the commit left |
| PipelineTheorems.OneWorkerKeepsUserOrder | internal/events/producer.go:24-43 | with events keyed by user and one worker, events of one user lie in one partition and complete in the order of the log |
| PipelineTheorems.UserOrderIffOneWorker | internal/events/producer.go:24-43 | whatever the partitioner, events of one user complete in log order in every run exactly with one worker |
| KeyStore.Client.Get | internal/cache/redis.go:74-83 | reads a value if its key is there and has not expired |
| KeyStore.Client.Set | internal/cache/redis.go:70-72 | writes a value with its expiry, and no other key |
| KeyStore.WriteThenRead | internal/cache/redis.go:70-83 | a key reads as what was last written to it until its time to live is over, and no other key is touched |
| KeyStore.Client.Delete | internal/cache/redis.go:85-87 | removes exactly the given keys |
| KeyStore.IncrWithWindow | internal/cache/redis.go:92-100 | answers one more than the live count and renews the expiry every time; without a positive window the key is deleted |
| RateLimit.RateLimiter.Handle | internal/middleware/ratelimit.go:17-49 | no limit lets everything through uncounted; a request the store does not answer is let through; any other is admitted with the limit and the rest of it, or gets a 429 with a rest of zero and Retry-After exactly if its burst exceeds the limit |
| RateLimit.CountIsBurst | internal/cache/redis.go:92-100 | the count of a request is the number of the client's requests since its latest idle gap of a window |
| RateLimit.AdmissionClosedForm | internal/middleware/ratelimit.go:34-46 | a request is admitted exactly when it is among the first `limit` of its burst, and is told the limit and the rest of it; a rejected one is told zero |
| RateLimit.DecisionClosedForm | internal/middleware/ratelimit.go:17-49 | over every history a request fails open exactly if the store does not answer it, and gets a 429 exactly if the store answers it and its burst exceeds the limit |
| RateLimit.RejectionLastsUntilIdle | internal/middleware/ratelimit.go:40-46 | a rejected client that is never idle for a window stays rejected; one idle for a window is admitted |
| RateLimit.SlidingWindowBound | internal/middleware/ratelimit.go:13-15 | over any span of one window, wherever it starts and over all instances, at most `limit` requests of a client are admitted |
| RateLimit.NoWindowNoLimit | internal/cache/redis.go:92-100 | with a window that is not positive every request is admitted |
| RateLimit.CodedIsStricter | internal/cache/redis.go:89-100 | on every history a true fixed-window limiter counts no more and admits whatever the coded one admits |
| RateLimit.MatchesFixedWindowIff | internal/cache/redis.go:89-91 | the two decide alike at every limit exactly while the request falls into the window opened by the first request of its burst |
| RateLimit.SteadyClientIsRejected | internal/cache/redis.go:89-100 | three requests half a minute apart: the coded limiter rejects the third, a fixed window admits it |
| ListCache.NormalizeLimit | internal/service/notification.go:126-134 | limits from 1 to 100 are kept and no others; smaller ones become 20, larger ones 100, both among the limits whose lists an Enqueue deletes |
| ListCacheTheorems.StepKeepsInv | internal/service/notification.go:84-105 | every step of a lister, an Enqueue or a worker keeps each cached, travelling and answered list a listing of a version of the table |
| ListCacheTheorems.StalenessBound | internal/service/notification.go:84-105 | every answer shows, field by field and in order, the listing for its user and normalised limit of a table that was current less than 15 s plus the filling reader's own delay before |
| ListCacheTheorems.AnswersAreOrdered | internal/repository/notification.go:56-64 | every answer is a list of that user's rows, newest first, none twice and no more than the limit |
| ListCacheTheorems.AnswersShowWhatWasEnqueued | internal/service/notification.go:42-105 | wherever an enqueued row turns up in an answer, from cache or table, it shows the user, channel, recipient, subject and body the Enqueue was given and the time of the insert |
| ListCacheTheorems.FreshIffAlwaysFresh | internal/service/notification.go:116-124 | all later calls for a key see a version or a later one exactly when no live entry and no travelling list of that key is older |
| ListCacheTheorems.ReadYourWrites | internal/service/notification.go:69-73 | after an Enqueue whose deletes took effect unstraddled, every later list at limit 20, 50 or 100 contains the new row or was read when that many rows were no older |
| ListCacheTheorems.CleanEnqueueFreshensKnownLimits | internal/service/notification.go:116-124 | after a whole Enqueue whose deletes took effect unstraddled, all later lists at 20, 50 and 100 see its row's version |
| ListCacheTheorems.OtherLimitsStayStale | internal/service/notification.go:120-123 | at any other limit, over every run that does not refill the key, whole Enqueues included, later lists see a version exactly if the list cached before the run has run out or is no older and no older list is on its way to the cache |
| ListCacheTheorems.OtherLimitMissesWrite | internal/service/notification.go:120-123 | from any initial state: a list at another limit, a whole clean Enqueue, and the next list misses the new row |
| ListCacheTheorems.StraddlingReaderMissesWrite | internal/service/notification.go:95-104 | from any initial state and at every limit, 20, 50 and 100 included: a reader that straddles a successful Enqueue makes a later list miss the new row |
| NotificationService.NotificationService.BeginList | internal/service/notification.go:84-86 | performs the start of a list call with the normalised limit |
| NotificationService.NotificationService.LookInCache | internal/service/notification.go:88-93 | performs the cache lookup: a hit answers, a miss or an error goes on |
| NotificationService.NotificationService.ReadDatabase | internal/service/notification.go:95-99 | performs the database read; item k shows every public field of row k of the listing |
| NotificationService.NotificationService.FillCache | internal/service/notification.go:101-104 | performs the cache fill and the answer, ignoring a failed fill |
| NotificationService.NotificationService.ListForUser | internal/service/notification.go:84-105 | a whole list call: the live cached list if there is one, else the listing of the table shown field by field, which the cache then holds for 15 s; no other key changes |
| NotificationService.NotificationService.InsertRow | internal/service/notification.go:48-61 | performs the insert of an Enqueue |
| NotificationService.NotificationService.FinishPublish | internal/service/notification.go:63-69 | performs the end of Publish: on failure the cache is left alone |
| NotificationService.NotificationService.DeleteNext | internal/service/notification.go:121-123 | performs one turn of the invalidation loop |
| NotificationService.NotificationService.InvalidateUserCache | internal/service/notification.go:116-124 | the loop removes exactly the user's lists whose delete took effect |
| NotificationService.NotificationService.Enqueue | internal/service/notification.go:42-73 | a whole Enqueue: a channel other than email, sms and push or a failed insert changes nothing, a failed publish leaves a pending row and the cache alone, success answers the given content, pending, without attempts and created now, and clears the lists |
| RefreshTokenTheorems.NeverFoundAgainIffSpent | internal/service/auth.go:96-103 | every later Get for a token misses exactly when it was generated, is not alive and is not being stored |
| RefreshTokenTheorems.NeverPaidAgainIff | internal/service/auth.go:96-121 | nobody obtains another pair for a token in any continuation exactly when it is spent and no running call has used it |
| RefreshTokenTheorems.SingleUse | internal/service/auth.go:89-130 | once a Refresh or Logout has deleted a stored token it stays spent, and the pairs ever obtained for it belong to Refresh calls whose Get came before, one each |
| RefreshTokenTheorems.TokenLivesIff | internal/service/auth.go:168-172 | a stored token stands for its user exactly until a Delete of it takes effect or its time to live is over |
| RefreshTokenTheorems.OverlapPaysTwice | internal/service/auth.go:96-121 | in any reachable state two overlapping refreshes can obtain two pairs for a live token |
| RefreshTokenChains.RotationKeepsOneTokenPerChain | internal/service/auth.go:52-130 | over runs of non-overlapping calls in which the Delete of every Refresh takes effect before its token expires, a chain of rotations has at most one live token, a user at most as many as accepted sign-ins, and no token is paid for twice |
| RefreshTokenChains.ChainStaysSingleIff | internal/service/auth.go:110-111 | at the Delete of a Refresh in such a run, the chain keeps to one live token in all that follows, later Deletes taking effect, exactly if this one takes effect or its token has expired |
| RefreshTokenChains.FailedDeleteForksChain | internal/service/auth.go:110-111 | from any initial state: a sign-in and one Refresh whose Delete fails leave two live tokens of one chain, without any overlap |
| RefreshTokenChains.LiveTokensWithinSuccesses | internal/service/auth.go:157-179 | if moreover no Set of a Signup or Login that took effect is reported as failed, a user's live tokens are at most the Signups and Logins that handed out a pair |
| RefreshTokenChains.StaysHandedIffAnswered | internal/service/auth.go:168-172 | after a sign-in's Set, every live token goes back to a sign-in that handed out a pair in all that follows, whatever overlaps and no later sign-in's answer being lost, exactly if this Set was answered or had no effect |
| RefreshTokenChains.LostAnswerLeavesToken | internal/service/auth.go:168-172 | one lost answer leaves a live token although no sign-in succeeded |
| AuthService.AuthService.SignIn | internal/service/auth.go:157-179 | stores the new token for the user with the configured time to live and changes no other |
| AuthService.AuthService.Refresh | internal/service/auth.go:91-122 | a pair exactly if the token was alive, the user exists and every call but the Delete succeeded; then the new token stands for the same user, and the old one is never found again, whatever follows, exactly if its Delete took effect |
| AuthService.AuthService.Logout | internal/service/auth.go:125-130 | removes the token if the Delete takes effect, and no other; a live token is never found again exactly if it does |

## Left out

- The consumer group's rebalancing and the Kafka, Redis and Postgres clients: library code that is not part of this model.
- The Kafka writer's internal retries, which can log an event twice: with them distinct places of the log could name one row.
- The loop counter of deliverWithRetry does not wrap: that would take 2^63 calls of Send.
- An effect that arrives after its caller has given up on the call, or in another process's session: an effect happens by the return of the call that asked for it.
- Attempts beyond the range of the INT column: the write then fails, which is one of the failing writes of the model.
- HTTP handlers, routing, headers other than the limiter's, logging, configuration parsing, health checks and server lifecycle: no hard state.
- JWT signing, password hashing, UUID and JSON parsing: parsing appears only as the cases malformed, bad id and event.
- Trimming and lower-casing of the channel name: a created row's channel is one of the three allowed names.
- The profile cache, ListAll, Get and role checks: they repeat the argument of the list cache or only read.
- A missing cache client (nil): the deployed services always have one.
- Rounding of the limiter's window to whole seconds by the Redis client: the window is taken in the units Redis receives.
