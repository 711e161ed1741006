# Verified model of the call-screening backend's stateful cores

The backend answers phone calls with an AI agent, screens callers, books free calendar slots, hands urgent calls
over to the owner and meters the minutes; a mobile client talks to it with rotating tokens. This project models the
small stateful algorithms and step protocols in it and proves what they keep over every input, every run or every
interleaving.

| file | models |
|---|---|
| CalendarSlots.dfy | the free-slot search: sort, cursor loop and tail loop |
| RateLimiter.dfy | the sliding-window limiter, as a Redis sorted set and as an in-memory list |
| Handoff.dfy | handoff offers, the expiry sweepers and the one-shot transfer |
| CallStatus.dfy | the call status machine under duplicated and reordered webhooks |
| CallPaging.dfy | keyset pagination over a table that changes between pages |
| TokenRefresh.dfy | the client's single-flight token refresh, alone and composed with the server |
| Sessions.dfy | session rotation, push tokens and device revocation |
| Billing.dfy | idempotent usage recording, plan changes and overage upgrades |
| Artifacts.dfy | the post-call pipeline, its polling loop and the running spam mean |
| Polling.dfy | how repeated polling meets metering |
| Numbers.dfy | the lifecycle of a user's phone number and its sweeps |
| PromptText.dfy, Prompts.dfy | two-stage prompt assembly |
| Sets.dfy, Options.dfy, Products.dfy | facts about finite sets and products, and the option type |

Database rows are maps or sequences held in a class; each service call is one step of a serial run, except where
interleavings are the point: limiter pipelines with delayed clean-ups, and the segments between two `await`s of the
client's interceptor. Each method is proved equal to a function of the old state, and the properties are lemmas about
that function and its runs. Time is a parameter. Answers of Twilio, the voice platform, Google and Redis expiry are
parameters or enabled actions.

Some promises hold only under a condition; the model keeps the code as it is and states the condition:

- Slot search: the slots stay in the business day if and only if no free window that ends after the day, but by the
  latest busy start, begins at or after the end of the in-day slots (`SlotsStayInDayIff`). Querying busy time only up
  to the day's end rules such windows out (`SlotsStayInDay`).
- Limiter: for request stamps in clock order every limit, window and interleaving is respected if and only if no two
  stamps are equal (`LimitHoldsIffStampsDistinct`), and so is the agreement of the two branches
  (`BranchesAgreeIffStampsDistinct`). Stamps that reach Redis out of order are safe as long as no request misses an
  allowed stamp near it (`LimitHoldsWhileNothingMissing`), and not always (`LatePipelineOverruns`). Requests with one
  stamp count once, and the late ZREM of a rejected one removes the member of an allowed one, which then lets in a
  request with a stamp of its own (`LateCleanupFreesGrantedSlot`).
- Handoff: `initiate_transfer` never compares the offer's call with the call. The call keeps the transfer's outcome,
  through every continuation, if and only if it had a resolved offer of its own when the transfer was attempted
  (`OutcomeKeptIffBacked`). `decline_offer` looks at no deadline: it commutes with a sweep if and only if the offer is
  not late (`DeclineCommutesWithSweepIff`), while an accept always does (`AcceptCommutesWithSweep`).
- Call status: the final status is independent of delivery order if and only if all terminal deliveries whose keys
  are not yet recorded agree (`OrderIndependentIffTerminalsAgree`).
- Paging: calls are purged by backend/app/workers/hard_deletion_worker.py:54, and calls may share a `created_at`. A walk
  returns a call that matched throughout if and only if every cursor followed before the call's turn is still in the
  table it is used on, and no page ended among calls of its time without it (`EveryCallExactlyOnce`).
- Token refresh: a refresh token can be sent again if and only if one that was sent is still stored after the flag
  dropped, which takes a failing `clearTokens` (`ResendIffSentTokenLeftStored`); rotation on the server keeps even such
  a token from being redeemed twice (`NoTokenRedeemedTwice`). A refresh that finishes leaves the issued token stored
  (`FinishedRefreshHoldsIssued`). Waiters that join the queue while the failure path awaits
  `clearTokens` are left unsettled (`FailureStrandsTheGap`).
- Sessions: a chain of refreshes lasts as long as each meets its deadline (`LoginChainSucceeds`). Each rotation makes a
  new session, so the absolute age is counted from the last refresh and never ends a session that is kept in use.
- Pipeline: transcript, summary and labels become ready together if and only if no pass with data stops between
  transcript and summary, or a later pass with data gets further (`AtomicIffNoneStoppedShort`). A provider answer whose
  analysis is null stops a pass there, and the worker commits what the row holds.
- Metering: a call is billed by polling for the first positive duration at a pass that reaches the billing block while
  the artifact is incomplete, so never if the artifact completes before (`BilledWhileUnresolved`). An overage upgrade
  looks at the plan's included minutes only, not at carried-over ones (`UpgradesExactlyPastAllowance`).
- Prompts: the synced prompt with the runtime's variables filled in equals the prompt assembled for the call if and
  only if the contact has no custom instructions (`StagedAssemblyIffNoContactInstructions`).
- Numbers: an owner can get an active number if and only if there is no released or failed row for the owner
  (`CanBecomeActiveIff`).

## Model

| member | source | states |
|---|---|---|
| CalendarSlots.FindAvailableSlots | backend/app/services/calendar_service.py:527-560 | The cursor sweep over any busy list (unsorted, nested, overlapping, outside the day) returns the list that repeatedly takes the least start at or after the last end whose window is free and ends by the horizon |
| CalendarSlots.EarliestFitIsUnique | backend/app/services/calendar_service.py:539-558 | That specification has one answer, and it depends only on which windows fit |
| CalendarSlots.EarliestFitIsSound | backend/app/services/calendar_service.py:535-560 | Slots have the exact length, come in order without overlap, start no earlier than the day and meet no busy interval |
| CalendarSlots.EarliestFitIsOptimal | backend/app/services/calendar_service.py:533-558 | No set of pairwise disjoint, busy-free windows of the requested length inside the searched time has more members than the returned list |
| CalendarSlots.OpenMeansNoBusyInstant | backend/app/services/calendar_service.py:540-549 | For busy intervals of positive length a window is free exactly when it contains no busy instant |
| CalendarSlots.SlotsDependOnBusyUnion | backend/app/services/calendar_service.py:522-560 | Two busy lists covering the same instants give the same slots, whatever their order, nesting or splitting |
| CalendarSlots.SlotsStayInDay | backend/app/services/calendar_service.py:522-558 | With busy intervals starting no later than the day's end, as queried, every slot lies in the business day |
| CalendarSlots.InDaySlotsComeFirst | backend/app/services/calendar_service.py:539-558 | Searching past the day's end only appends slots that end after the day |
| CalendarSlots.SlotsStayInDayIff | backend/app/services/calendar_service.py:539-558 | For every busy list the slots stay in the day if and only if no free window past the day's end, but within the latest busy start, begins at or after the end of the in-day slots |
| CalendarSlots.LateBusyOvershootsDay | backend/app/services/calendar_service.py:539-547 | A concrete busy list on which the loop offers slots outside the day |
| CalendarSlots.SortIsPermutation | backend/app/services/calendar_service.py:533 | The sort keeps every busy interval, with multiplicity |
| RateLimiter.RedisKey.RunPipeline | backend/app/core/rate_limiter.py:38-52 | The pipeline and the decision taken from its cardinality are one atomic step of the key's state |
| RateLimiter.RedisKey.RemoveRejected | backend/app/core/rate_limiter.py:50 | The late ZREM removes exactly the rejected stamp |
| RateLimiter.MemoryStore.Check | backend/app/core/rate_limiter.py:54-60 | The in-memory check on one key, leaving all other keys alone |
| RateLimiter.RequestKeepsInvariant | backend/app/core/rate_limiter.py:41-52 | A pipeline with a stamp the key has not seen keeps the limit at every allowed stamp and every live stamp in the set |
| RateLimiter.CleanupKeepsInvariant | backend/app/core/rate_limiter.py:49-51 | So does a ZREM that arrives at any later time |
| RateLimiter.ExpiryDropsNothingLive | backend/app/core/rate_limiter.py:45 | When Redis drops the key after its expiry no dropped stamp is inside the current window, and the key is empty |
| RateLimiter.InvariantAlongRun | backend/app/core/rate_limiter.py:36-52 | The invariant holds after every interleaving of pipelines with distinct stamps, delayed clean-ups and key expiry |
| RateLimiter.LimitHoldsInEveryWindow | backend/app/core/rate_limiter.py:28-52 | After every such interleaving each window (t-w, t] holds at most max_requests allowed requests, repeats counted |
| RateLimiter.LimitHoldsIffStampsDistinct | backend/app/core/rate_limiter.py:38-52 | For request stamps in clock order, every limit, window and interleaving is respected if and only if no two stamps are equal |
| RateLimiter.LateCleanupFreesGrantedSlot | backend/app/core/rate_limiter.py:43-52 | A possible run for a limit of 1 in which a late ZREM removes an allowed request's member and two requests with distinct stamps are allowed in one window |
| RateLimiter.LimitHoldsWhileNothingMissing | backend/app/core/rate_limiter.py:38-52 | In any order of stamps, clean-ups and expiry, no window holds more than max_requests distinct allowed stamps as long as no allowed request misses an allowed stamp less than a window away |
| RateLimiter.LatePipelineOverruns | backend/app/core/rate_limiter.py:38-46 | Distinct stamps that reach Redis out of order can put three allowed requests in a window for a limit of 2 |
| RateLimiter.DecisionIsExact | backend/app/core/rate_limiter.py:48-52 | In any interleaving a request with a new stamp is allowed exactly when its window holds fewer than max_requests allowed requests and not yet removed rejections; the remaining count is exact |
| RateLimiter.EqualStampsCountOnce | backend/app/core/rate_limiter.py:43-52 | Requests with one stamp share a member: in any state the next one gets the same answer, whatever the limit |
| RateLimiter.SameLiveAfterPrune | backend/app/core/rate_limiter.py:42-60 | Pruning keeps the list and the sorted set equal on live stamps and of equal size |
| RateLimiter.MirrorAfterCheck | backend/app/core/rate_limiter.py:36-60 | One uninterrupted check gives the same decision on both branches and keeps them in step |
| RateLimiter.BranchesAgree | backend/app/core/rate_limiter.py:28-60 | Over any run with increasing stamps, idle expiries included, both branches return the same (allowed, remaining) every time |
| RateLimiter.BranchesAgreeIffStampsDistinct | backend/app/core/rate_limiter.py:28-60 | For calls with stamps in clock order the branches agree for every limit and window if and only if no two stamps are equal |
| RateLimiter.SameAllowedSameFuture | backend/app/core/rate_limiter.py:41-52 | Two keys without pending clean-ups that allowed the same requests decide every possible future alike |
| RateLimiter.DenialsAreExactAndFree | backend/app/core/rate_limiter.py:48-60 | Without interleaving a denial means the window holds exactly max_requests allowed requests, and every later run of calls is decided as if the denied one had not been made |
| Handoff.HandoffService.Create | backend/app/services/handoff_service.py:101-139 | Inserting an offer and the call's mirror fields, or a conflict when the call already has one |
| Handoff.HandoffService.Accept | backend/app/services/handoff_service.py:142-181 | The accept step with all four outcomes and both rows' new contents |
| Handoff.HandoffService.Decline | backend/app/services/handoff_service.py:184-202 | The decline step with its three outcomes; no deadline is looked at |
| Handoff.HandoffService.ExpireStaleOffers | backend/app/services/handoff_service.py:210-229 | The loop over the selected rows equals one simultaneous sweep of all stale offers and their calls |
| Handoff.HandoffService.SyncCall | backend/app/services/handoff_service.py:237-251 | Only the named call's mirrored status changes |
| Handoff.HandoffService.Transfer | backend/app/services/transfer_service.py:27-99 | Guards in order, attempt count, and the status left when there is or is no target phone |
| Handoff.ExpireOneMore | backend/app/services/handoff_service.py:222-224 | Expiring one more offer and syncing its call extends the simultaneous sweep by that offer |
| Handoff.SweepIsInvisible | backend/app/services/handoff_service.py:210-229 | A sweep on one of two similar tables keeps them similar |
| Handoff.StepKeepsSimilar | backend/app/services/handoff_service.py:142-202 | Every other step keeps similar tables similar and shows winners and transfers the same answer |
| Handoff.SweepTimingIsUnobservable | backend/app/services/handoff_service.py:142-229 | Inserting or deleting any sweeper steps in a run changes neither which accepts win nor any transfer's answer |
| Handoff.ResolvedOfferStaysResolved | backend/app/services/handoff_service.py:159-160 | An offer that left "offered" is never changed again in any run |
| Handoff.AtMostOneWinner | backend/app/services/handoff_service.py:148-181 | In every run at most one accept of an offer wins |
| Handoff.AcceptedMeansWonInTime | backend/app/services/handoff_service.py:162-181 | An offer is accepted only because some accept won, with that device, at the recorded time and no later than its deadline |
| Handoff.TransferStartsAtMostOnce | backend/app/services/transfer_service.py:39-46 | In every run a call's transfer starts at most once |
| Handoff.TransferFollowsAcceptance | backend/app/services/transfer_service.py:36-37 | A transfer starts only after an accept of the offer it names has won |
| Handoff.StepKeepsKeyed | backend/app/models/handoff_offer.py:36 | Offers keep naming existing calls, at most one offer a call |
| Handoff.OfferAndCallAgree | backend/app/services/handoff_service.py:125-251 | In every reachable state, whichever offers transfers name, each call mirrors its only offer until a transfer is attempted on it, and at most one is |
| Handoff.OutcomeKeptIffBacked | backend/app/services/transfer_service.py:33-79 | In any run, after the first attempt the call keeps the transfer's outcome, at the end and through every continuation, if and only if a resolved offer of its own existed when the attempt was made |
| Handoff.LateResolutionOverwrites | backend/app/services/handoff_service.py:196-251 | Resolving a call's own offer after a transfer was attempted overwrites the outcome for good |
| Handoff.ForeignOfferLosesOutcome | backend/app/services/transfer_service.py:33-46 | The least such run from empty offers: a call is transferred on another call's accepted offer and then its own offer is declined |
| Handoff.OwnOfferIsBacked | backend/app/services/transfer_service.py:36-46 | Callers that always pass the call's own offer meet that condition, and every attempted call's own offer is accepted |
| Handoff.TransferStatusIsFinalIff | backend/app/services/transfer_service.py:45-79 | After an attempt no later step of any run changes the call's handoff status if and only if the call has a resolved offer of its own |
| Handoff.FirstAnswerInTimeWins | backend/app/services/handoff_service.py:101-202 | In any continuation of a creation an accept of the new offer wins if and only if it comes no later than the timeout after the creation and nobody accepted or declined the offer before |
| Handoff.CreatedOfferKeepsDates | backend/app/services/handoff_service.py:108-139 | Offer and call keep the creation time and the deadline, which is the creation time plus the timeout, for good |
| Handoff.AttributedAlongRun | backend/app/services/handoff_service.py:162-202 | In every run exactly the accepted offers have an acceptance time and a device, which their calls repeat, and exactly the declined ones a decline time |
| Handoff.DeclinedMeansAnswered | backend/app/services/handoff_service.py:184-202 | An offer ends up declined only because some decline of it was granted, at the recorded time |
| Handoff.AcceptCommutesWithSweep | backend/app/services/handoff_service.py:142-229 | An accept and a sweep at the same time leave the same tables in either order |
| Handoff.DeclineCommutesWithSweepIff | backend/app/services/handoff_service.py:184-229 | A decline and a sweep commute if and only if the offer is not past its deadline |
| Handoff.SweepBeforeAnswer | backend/app/services/handoff_service.py:148-202 | Each answer to an accept or decline names its cause, and a sweep just before turns a late accept into a loss and a late decline into a refusal |
| Handoff.StartsIff | backend/app/services/transfer_service.py:33-79 | A step of a run starts a transfer if and only if it has a phone, the call was last reported in progress and without a loop, the named offer was won earlier or accepted at the start, and no attempt on the call came before |
| Handoff.OutcomeTellsAnswer | backend/app/services/transfer_service.py:45-79 | In a run backed at its first attempt the call ends with its transfer starting if and only if some step started it, and failed if and only if an attempt found no phone |
| Handoff.RefusalSaysWhy | backend/app/services/transfer_service.py:33-43 | A refused transfer changes nothing and answers the first guard that fails |
| CallStatus.CallRecord.TransitionStatus | backend/app/services/call_service.py:138-188 | Rejection, deduplication, optional end time and duration, and the recorded event |
| CallStatus.StatusIsLastRecorded | backend/app/services/call_service.py:150-188 | The call's status is that of its last recorded transition, the rank never falls and terminal stays terminal |
| CallStatus.LastRecordedDurationWins | backend/app/services/call_service.py:150-188 | After any deliveries duration and end time are those of the last newly recorded event that carries one, and the call's own if none does |
| CallStatus.DuplicateNeverOutranks | backend/app/services/call_service.py:159-171 | When a key always carries one status, deduplication never blocks an advance |
| CallStatus.FinalRankIsMaximum | backend/app/services/call_service.py:30-64 | Any delivery sequence, duplicated and reordered, ends at the maximum rank seen |
| CallStatus.MaxRankIsMaximum | backend/app/services/call_service.py:30-41 | That maximum bounds every delivery's rank and is reached |
| CallStatus.TerminalIsRecorded | backend/app/services/call_service.py:59-64 | A terminal delivery's key always ends up recorded, whatever came before |
| CallStatus.LastTerminalKeyWins | backend/app/services/call_service.py:59-64 | For each terminal delivery there is an order of the deliveries that ends in its status |
| CallStatus.HistoryOnlyFilters | backend/app/services/call_service.py:159-171 | Events recorded earlier act only by filtering out deliveries with their keys |
| CallStatus.OrderIndependentIffTerminalsAgree | backend/app/services/call_service.py:59-188 | For any call the final status of a set of deliveries is independent of order and duplication if and only if its terminal deliveries with unrecorded keys agree |
| CallStatus.CallbacksAreConsistent | backend/app/services/call_service.py:43-68 | Status callbacks mapped from provider statuses always satisfy the one-status-per-key condition |
| CallStatus.LifeCycleAdvances | backend/app/services/call_service.py:30-68 | On a new call, status callbacks in the order of the provider's life cycle, any of them missing, are all recorded and the call ends with the last one's status |
| CallPaging.ListCallsForUser | backend/app/services/call_service.py:317-349 | The query built step by step equals the page specified for that cursor and limit |
| CallPaging.PageIsNewest | backend/app/services/call_service.py:319-349 | A page holds the newest matching rows below the cursor, newest first and each once; `has_more` holds exactly when one is left out |
| CallPaging.NextBound | backend/app/services/call_service.py:326-348 | On the next, changed table the id of a row returned before bounds the page by that row's time, or selects nothing if the row was purged |
| CallPaging.LeftOutRowComesNext | backend/app/services/call_service.py:344-348 | A matching row that a page leaves out makes `has_more` true and is no newer than the row of the next cursor |
| CallPaging.WalkDescends | backend/app/services/call_service.py:317-349 | All rows of a walk come newest first, inside the bound |
| CallPaging.WalkReturnsOnce | backend/app/services/call_service.py:317-349 | No call is returned twice, purges, insertions and equal times included |
| CallPaging.WalkReturnsIff | backend/app/services/call_service.py:317-349 | A finished walk contains a row that matched throughout and lies below its first cursor if and only if every cursor followed before the row's turn is in the table it is used on and no page ended among rows of its time without it |
| CallPaging.EveryCallExactlyOnce | backend/app/services/call_service.py:317-349 | Following next_cursor to the end returns a call that matched throughout exactly once if no such cursor was purged and no page cut the call off from a tie, and not at all otherwise, whatever else was inserted, soft-deleted, purged or changed meanwhile |
| CallPaging.PurgedCursorLosesOlderCalls | backend/app/workers/hard_deletion_worker.py:54 | A purged cursor costs the walk every older call, even one that matched throughout |
| CallPaging.PurgeLosesCall | backend/app/services/call_service.py:330-348 | The least walk with a purge: two calls, pages of one, and the first call purged after its page was read |
| CallPaging.TieLosesCall | backend/app/services/call_service.py:337 | The least walk with a tie: two calls of the same time and pages of one in an unchanged table lose one of them |
| CallPaging.WalkReturnsOriginalRows | backend/app/services/call_service.py:326-339 | When inserted calls are newer, a walk returns only calls that existed when it began |
| CallPaging.WalkTerminates | backend/app/services/call_service.py:344-349 | Then the number of pages is bounded by the first table's size, whatever is inserted during the walk |
| CallPaging.PurgedCursorEndsWalk | backend/app/services/call_service.py:330-337 | A cursor whose row is gone gives an empty last page |
| CallPaging.UnusableCursorStartsOver | backend/app/services/call_service.py:326-339 | Without a cursor, or with one that is no UUID, every matching row is on the page or no newer than all rows on it |
| TokenRefresh.Interceptor.ProcessQueue | mobile/src/api/client.ts:20-29 | The loop settles every waiter in order and empties the queue |
| TokenRefresh.Interceptor.OnUnauthorized | mobile/src/api/client.ts:42-63 | A 401 is passed on, queued or made the leader |
| TokenRefresh.Interceptor.OnTokenRead | mobile/src/api/client.ts:63 | The stored token is read once, when the keychain answers |
| TokenRefresh.Interceptor.SendRefresh | mobile/src/api/client.ts:64-70 | Posts the token read, or fails when there is none |
| TokenRefresh.Interceptor.OnAnswer | mobile/src/api/client.ts:68-72 | A new pair arrives and is about to be stored |
| TokenRefresh.Interceptor.OnTokenWritten | mobile/src/utils/secureStorage.ts:34-36 | The new refresh token replaces the sent one |
| TokenRefresh.Interceptor.OnStored | mobile/src/api/client.ts:72-85 | Success: waiters resolved, queue empty, flag dropped |
| TokenRefresh.Interceptor.OnError | mobile/src/api/client.ts:79-80 | Failure of any awaited call rejects the waiters present |
| TokenRefresh.Interceptor.OnTokenRemoved | mobile/src/utils/secureStorage.ts:50-52 | The stored refresh token is removed |
| TokenRefresh.Interceptor.OnCleared | mobile/src/api/client.ts:81-85 | The flag drops on the failure path, the queue as it is |
| TokenRefresh.StepKeepsSingleFlight | mobile/src/api/client.ts:45-60 | The flag is up exactly while one flight is under way |
| TokenRefresh.StepKeepsSendsOnce | mobile/src/api/client.ts:59-85 | A stored token that was already sent is always about to be replaced or removed |
| TokenRefresh.ProtocolSafety | mobile/src/api/client.ts:14-86 | In every interleaving at most one refresh is in flight, each request leads at most one and each waiter is settled at most once |
| TokenRefresh.NoTokenSentTwice | mobile/src/api/client.ts:59-85 | While clearing tokens works, no interleaving sends a refresh token twice |
| TokenRefresh.ResendIffSentTokenLeftStored | mobile/src/api/client.ts:79-85 | Between refreshes no run can resend a token if and only if the stored token has not been sent |
| TokenRefresh.FailedClearResends | mobile/src/api/client.ts:79-85 | The least such run from a fresh client: the post breaks, clearing fails and the next 401 sends the token again |
| TokenRefresh.SuccessLeavesNobodyWaiting | mobile/src/api/client.ts:72-85 | On the success path every waiter is resolved and the queue is empty when the flag drops |
| TokenRefresh.FailureStrandsTheGap | mobile/src/api/client.ts:79-85 | On the failure path, whether clearing works or rejects, exactly the requests that met a 401 between the drain and the flag's drop stay queued and unsettled |
| TokenRefresh.StrandedSettledIffDrained | mobile/src/api/client.ts:20-85 | A queued waiter is settled in a continuation if and only if some later refresh drains the queue in it |
| TokenRefresh.ResolvedIffDrainSucceeds | mobile/src/api/client.ts:20-85 | A queued waiter gets the new token in a continuation if and only if the first drain in it is that of a successful refresh |
| TokenRefresh.FinishedRefreshStores | mobile/src/api/client.ts:68-85 | A refresh answered with a new token that finishes leaves exactly that token stored, whatever requests come in between |
| TokenRefresh.FailedRefreshRemoves | mobile/src/api/client.ts:64-85 | A refresh that fails and lands through a working clean-up leaves nothing stored |
| TokenRefresh.EveryAwaitMayReject | mobile/src/api/client.ts:62-85 | A rejection of any awaited call of the try block can land with nothing stored and nobody waiting |
| TokenRefresh.SignOutEndsSending | mobile/src/utils/secureStorage.ts:46-54 | After a sign-out between refreshes no token is sent or stored until another flow stores one |
| TokenRefresh.ArrivalsAreUnknown | mobile/src/api/client.ts:68-72 | However late, an answer that arrives carries a token the client has not seen |
| TokenRefresh.NextKeepsInvariant | backend/app/services/session_service.py:84-172 | Client and server together, with delayed and lost posts and answers and failing clean-up, keep every token the client knows issued and every redeemed token dead |
| TokenRefresh.NoTokenRedeemedTwice | backend/app/services/session_service.py:90-152 | In every run of the composed system from a fresh client no token is redeemed twice, and every token the client stores or sends was issued by the server |
| TokenRefresh.NoTokenSentTwiceInSystem | mobile/src/api/client.ts:59-85 | In every such run in which clearing works the interceptor sends no token twice |
| TokenRefresh.FinishedRefreshHoldsIssued | mobile/src/api/client.ts:62-85 | In the composed system a finished refresh leaves stored the token the server issued for the redeemed one, of the same user and device and live unless a later server step ended it |
| TokenRefresh.RefreshCanSucceed | mobile/src/api/client.ts:42-85 | From every reachable state between refreshes in which the server would redeem the stored token, some run sends it once, redeems it once, resolves every waiter and ends with the new token stored |
| TokenRefresh.EveryRotationIsLogged | backend/app/services/session_service.py:126-152 | In every run of the composed system each session the server rotates is in the log of redemptions |
| Sessions.IdentityService.StartSession | backend/app/services/session_service.py:23-81 | Login revokes the user's live sessions and adds the new one; uniqueness is kept |
| Sessions.IdentityService.RotateSession | backend/app/services/session_service.py:84-172 | Refresh with its six refusals in order, and rotation to the new token |
| Sessions.IdentityService.EndSession | backend/app/services/session_service.py:175-195 | Logout of one session |
| Sessions.IdentityService.EndAllSessions | backend/app/services/session_service.py:198-221 | Logout everywhere and the number of sessions it revoked |
| Sessions.IdentityService.RegisterPushToken | backend/app/services/push_service.py:12-59 | Two bulk revocations and the insert; uniqueness is kept |
| Sessions.IdentityService.RemoveDevice | backend/app/services/device_service.py:135-168 | The device row and the cascade |
| Sessions.RegisterKeepsBijection | backend/app/services/push_service.py:22-50 | The two updates clear both sides of the pairing before the insert |
| Sessions.UniqueOverRuns | backend/app/services/session_service.py:31-60 | Over all runs each user has at most one unrevoked session and active push tokens pair (device, provider) with (provider, token) one to one |
| Sessions.LoginLeavesOnlyNewSession | backend/app/services/session_service.py:33-60 | After a login exactly the new session of the user is live and other users' sessions are untouched |
| Sessions.RevokedDeviceHasNothingLive | backend/app/services/device_service.py:142-156 | After device revocation no session or push token of the device is live and nothing else changed |
| Sessions.RevokedForever | backend/app/services/session_service.py:98-99 | A revoked session is never revived by any step |
| Sessions.RefreshHandsOver | backend/app/services/session_service.py:92-152 | A refresh succeeds only for a live, unexpired session and hands exactly its user and device to the new token |
| Sessions.RedeemedAtMostOnce | backend/app/services/session_service.py:98-130 | In any run a refresh token is redeemed at most once |
| Sessions.RefreshSucceedsIff | backend/app/services/session_service.py:90-130 | A refresh succeeds if and only if the token's session is live, unexpired and within the absolute age, its device is present and not revoked, and the account is active |
| Sessions.RefusalsDiffer | backend/app/services/session_service.py:92-130 | A missing or revoked device ends the session, an inactive account leaves it to succeed once active, and no other refusal changes anything |
| Sessions.EndedSessionsSayWhy | backend/app/services/session_service.py:23-221 | Every session a step ends records that time and the step's reason and keeps its other columns |
| Sessions.LoginChainSucceeds | backend/app/services/session_service.py:23-172 | After a login of an active user on a live device every refresh of the chain succeeds while nobody logs in again, logs out, drops the device or changes the account and each refresh meets its deadline |
| Sessions.LockedRedeemsNothing | backend/app/services/session_service.py:126-130 | A locked, deleted or missing user redeems no token in any run before the account is active again |
| Sessions.NewDeviceCanRefresh | backend/app/services/device_service.py:35-89 | From any tables, adding a device, activating the account and logging in give a session that can be refreshed up to its deadline |
| Sessions.RevokedDeviceForever | backend/app/services/device_service.py:46-78 | A revoked device stays revoked in every run, with its owner, and with its time unless it is revoked again |
| Sessions.LogoutEndsSession | backend/app/services/session_service.py:175-195 | A session that was logged out redeems nothing in any continuation, and no other session is touched |
| Sessions.LogoutEverywhereEndsAll | backend/app/services/session_service.py:198-221 | Logging out everywhere ends every session of the user for good and touches no other |
| Sessions.RegisteredIsOnlyActive | backend/app/services/push_service.py:12-59 | Right after registration the token is active and the only active one of its device and of its value at this provider |
| Sessions.RegisteredStaysActive | backend/app/services/push_service.py:12-59 | It stays active in every run without another registration of its device or token at this provider and without device revocation |
| Billing.BillingService.Record | backend/app/services/billing_service.py:533-641 | Recording with idempotency, the usage event and the overage upgrade |
| Billing.BillingService.Change | backend/app/services/billing_service.py:330-460 | Plan change with its refusals in order, subscription creation and carry-over |
| Billing.RecordUsageConserves | backend/app/services/billing_service.py:562-579 | One recording moves minutes_used and the billed events by the same amount, for every user |
| Billing.LedgerBalances | backend/app/services/billing_service.py:544-579 | Over any run the rise in minutes_used is the sum of minutes_billed of the new events plus what was recorded without a key |
| Billing.RecordReportsTotal | backend/app/services/billing_service.py:544-641 | The answer to a recording is the user's new total and whether it was a duplicate, which changes nothing |
| Billing.BilledCallIsFinal | backend/app/services/billing_service.py:544-560 | Once a call has its event no later pass adds or changes one |
| Billing.CallBilledExactlyOnce | backend/app/services/artifact_service.py:1187-1199 | Over any number and order of passes a call gets at most one event, from the first pass with a positive duration |
| Billing.MinutesIsCeiling | backend/app/services/artifact_service.py:1190 | The billed minutes are the least whole number that covers the duration |
| Billing.CarryOverClosedForm | backend/app/services/billing_service.py:400-409 | Over any run minutes_carried_over is the larger of 0 and the greatest suffix sum of (included - used) at the in-period changes, the starting carry counting towards the full sum |
| Billing.CarryIsUnique | backend/app/services/billing_service.py:400-409 | That closed form determines one value |
| Billing.ChangeCarriesReportedMinutes | backend/app/services/billing_service.py:110-111 | An in-period change carries over exactly the minutes_remaining the status endpoint showed just before, and touches no other subscription |
| Billing.ChangeAnswersIff | backend/app/services/billing_service.py:330-398 | A change goes through exactly for another offered plan of an active or past-due subscription, a subscription is created exactly for an offered plan with a card; each refusal has its cause and changes nothing |
| Billing.PeriodDecidesCarry | backend/app/services/billing_service.py:400-436 | After a subscription, or without Stripe a change, and any calls and other usage, the next change carries over the minutes reported just before it if it comes within one period length, and none otherwise |
| Billing.StripeKeepsPeriod | backend/app/services/billing_service.py:411-436 | With Stripe a plan change keeps the running period |
| Billing.IncludedMatchesAlongRun | backend/app/services/billing_service.py:431-432 | In every run a subscription's included minutes are those of its plan |
| Billing.UpgradesExactlyPastAllowance | backend/app/services/billing_service.py:584-592 | At any point of any run a recording upgrades exactly when the new total passes the stored allowance of an active plan with an overage rule; everything else of the subscription stays |
| Artifacts.ProcessPendingArtifacts | backend/app/workers/post_call.py:22-85 | The worker gives every row of its batch one pass, leaves a row whose pass raised after the stages done by then, counts the completed passes and touches no other row |
| Artifacts.ArtifactRow.FetchTranscript | backend/app/services/artifact_service.py:1102-1132 | The transcript stage and the data later stages see |
| Artifacts.ArtifactRow.Summarize | backend/app/services/artifact_service.py:1134-1146 | The summary stage, and that it leaves the row alone when the generator raises on the data |
| Artifacts.ArtifactRow.Label | backend/app/services/artifact_service.py:1148-1185 | The labels stage and the spam registration |
| Artifacts.ArtifactRow.Process | backend/app/services/artifact_service.py:1085-1296 | One pass is the stages in order up to where it raises; a completed one returns whether all parts are done |
| Artifacts.RunAdvances | backend/app/services/artifact_service.py:1102-1185 | In every run, wherever passes raise, the artifact is in the state its passes have reached: the `missing_*` flags are the negations of the ready statuses and spam was registered at most once |
| Artifacts.AtomicIffNoneStoppedShort | backend/app/services/artifact_service.py:1102-1185 | After every completed pass from a fresh artifact the three parts are all ready or all unresolved, unless the conversation is linked, a pass with data stopped between transcript and summary and none with data got past the summary; and exactly then not |
| Artifacts.StoppedPassSplitsArtifact | backend/app/services/artifact_service.py:359-382 | The least such run: data on which the summary raises, and nothing at the next poll |
| Artifacts.ReadyNeverRegresses | backend/app/services/artifact_service.py:1102-1185 | From any state and wherever a pass raises, a ready part stays ready with its flag, and registrations rise only in the pass that makes the labels ready, by one |
| Artifacts.RegisteredIffSpam | backend/app/services/artifact_service.py:1162-1185 | In every run the caller is registered, once, if and only if the pass that makes the artifact ready calls it spam |
| Artifacts.TriggeredStaysStarted | backend/app/services/artifact_service.py:162-183 | Once processing was triggered no part is pending again in any run |
| Artifacts.AskedIsProcessing | backend/app/services/artifact_service.py:1102-1132 | A linked conversation without data is being processed after the first pass that asked for it |
| Artifacts.FailedTranscriptResolvesRest | backend/app/services/artifact_service.py:1134-1185 | A failed transcript fails the summary and, unless they can be taken from an extraction, the labels in one completed pass, after which everything is done |
| Artifacts.DoneMeansUnselected | backend/app/workers/post_call.py:24-42 | A pass leaves every part done exactly when it takes the row out of the worker's query |
| Artifacts.CompletesIffFinished | backend/app/services/artifact_service.py:1103-1168 | An artifact becomes ready if and only if a conversation is linked, some pass with data got past the summary, and this or a later pass reached the labels |
| Artifacts.RoundHalfEven | backend/app/services/artifact_service.py:1022-1025 | The rounded value is a nearest integer, the even one of two |
| Artifacts.SpamRegister.RegisterSpamCaller | backend/app/services/artifact_service.py:1012-1041 | One entry a caller, count and mean updated in place |
| Artifacts.ErrorGrows | backend/app/services/artifact_service.py:1020-1025 | One more rounding adds at most half the new count to the error of the sum |
| Artifacts.MeanStaysInside | backend/app/services/artifact_service.py:1020-1025 | The new mean stays between any bounds that hold for the old mean and the new score |
| Artifacts.SpamMeanBound | backend/app/services/artifact_service.py:1020-1041 | After n flags 4·(n·score − sum of scores) is at most (n−1)(n+2) in absolute value, and the stored score lies between the least and the greatest score recorded |
| Polling.BilledWhileUnresolved | backend/app/workers/post_call.py:24-42 | A polled call is billed once, for the first positive duration at a pass that reached the billing block while its artifact was incomplete, and not at all if there is none |
| Polling.VisitBillsIff | backend/app/workers/post_call.py:24-42 | A visit adds a usage event if and only if the row is selected, the call has none, the pass got past the labels and the duration is positive; a completed pass always does |
| Numbers.NumberService.ProvisionFor | backend/app/services/telephony_service.py:105-258 | Provisioning with every outcome, including the existing row that blocks it |
| Numbers.NumberService.SuspendFor | backend/app/services/telephony_service.py:309-345 | Suspension of an active or pending number, with truncated reason and time |
| Numbers.NumberService.ReleaseFor | backend/app/services/telephony_service.py:348-380 | Release of any number not yet released |
| Numbers.NumberService.ReactivateFor | backend/app/services/telephony_service.py:383-406 | Reactivation clears time and reason |
| Numbers.NumberService.CleanupStalePending | backend/app/workers/number_lifecycle.py:29-68 | The loop releases exactly the stale pending numbers and counts them |
| Numbers.NumberService.ReleaseAfterGrace | backend/app/workers/number_lifecycle.py:71-97 | The loop releases exactly the overdue numbers and counts them |
| Numbers.RunsKeepRows | backend/app/services/telephony_service.py:309-406 | Over all runs no row disappears, released rows never change and exactly they have a release time, suspended implies a recorded time and reason, active, pending and failed imply neither, and only active and suspended rows take calls |
| Numbers.ClockIsStartOfStatus | backend/app/services/telephony_service.py:309-334 | `suspended_at` is always the start of the current unbroken suspension, and a pending number's `updated_at` that of its pending time, read off the history of statuses alone |
| Numbers.GraceSweepIsExact | backend/app/workers/number_lifecycle.py:76-97 | After any run the grace sweep turns a number to released, at this time and without its webhook, if and only if it has been suspended without interruption since before the cutoff, and changes no other row |
| Numbers.CleanupIsExact | backend/app/workers/number_lifecycle.py:29-68 | So does the pending clean-up for numbers pending since before its cutoff |
| Numbers.ReleaseIsFinal | backend/app/services/telephony_service.py:348-380 | A release names the status and its time, answers whether it did anything, lasts through every continuation, and provisioning is refused ever after |
| Numbers.SuspensionIsRecorded | backend/app/services/telephony_service.py:309-406 | Suspension takes effect exactly on active and pending numbers with time and cut reason, reactivation exactly on suspended ones, and it takes both away again |
| Numbers.CanBecomeActiveIff | backend/app/services/telephony_service.py:105-406 | Some run gives an owner an active number if and only if the owner has no released or failed row |
| Numbers.BlockedOwnerGetsNoNumber | backend/app/models/user_number.py:16 | After a release or a failed purchase every later provisioning is refused |
| Numbers.ProvisionedIff | backend/app/services/telephony_service.py:105-258 | Provisioning answers with a number exactly for an active or pending row, or no row and a purchase that succeeds, under active billing; a purchase leaves an active, pending or failed row as it went |
| Numbers.NoRowWithoutBilling | backend/app/services/telephony_service.py:105-130 | Nobody gets a row in any run without a provisioning request made while billing was active |
| PromptText.FoundAtStart | backend/app/services/prompts.py:908-913 | A placeholder at the start of a text is recognised as itself and no other |
| PromptText.NoOccurrenceAcrossWording | backend/app/services/prompts.py:930-947 | No placeholder can span inserted text and the wording after it |
| PromptText.StaticTextIsClean | backend/app/services/prompts.py:930-947 | Text assembled from wording and placeholder-free insertions contains no placeholder |
| PromptText.SubstituteRendered | backend/app/services/agent_service.py:625-631 | Substituting values into a text rendered with placeholders gives the text rendered with the values |
| Prompts.PlaceholdersAreWellMarked | backend/app/services/prompts.py:908-913 | The five placeholders are braced names told apart by two letters |
| Prompts.SyncedIsReplaced | backend/app/services/prompts.py:908-913 | The texts the assembler puts into the five slots are exactly what the platform replaces |
| Prompts.TemplateIsSeparated | backend/app/services/prompts.py:928-947 | Every assembled prompt keeps wording between inserted texts |
| Prompts.LongerContext | backend/app/services/agent_service.py:563-565 | Appending to the caller context lengthens the prompt once for each of its slots |
| Prompts.StagedAssemblyIffNoContactInstructions | backend/app/services/prompts.py:908-947 | Substituting the runtime's variables into the synced prompt gives exactly the prompt assembled for the call, if and only if the contact has no custom instructions |
| Prompts.SyncIgnoresCaller | backend/app/services/prompts.py:906-915 | The prompt that is synced is the same for every caller |
| Prompts.StrippedKeepsCore | backend/app/services/prompts.py:569-578 | Stripping instructions takes away the spaces around the text, all of them and nothing else |
| Prompts.SettingsMoveTheirBlocks | backend/app/services/prompts.py:443-482 | Temperament, swearing rule, time limit and repeat-caller context each move their own block and no other |
| Prompts.FieldsGoToTheirSlots | backend/app/services/prompts.py:844-947 | Each of the agent's fields reaches the prompt only through its own slots |
| Prompts.MemoryTellsExactly | backend/app/services/prompts.py:483-563 | The memory block says that nothing is known exactly then; otherwise its lines besides the fixed ones are exactly one for every known item, VIP field and context that is not blank |
| Prompts.CallerContextTellsExactly | backend/app/services/prompts.py:443-472 | The caller context is empty exactly for callers who are not VIPs, and names the VIP exactly when a name is known |
| Prompts.SettingsShow | backend/app/services/prompts.py:373-482 | The time limit names the kind of caller, and the recording and instruction slots are filled exactly when set |

## Left out

- Routing, schemas, audit events, encryption, hashing, tokens' cryptography, push and email delivery: I/O plumbing; tokens are numbers and must be fresh.
- Database isolation: service calls are serial transactions. `accept_offer` locks its row; `decline_offer` and the sweepers do not, and what concurrent transactions could do beyond serial order is not modelled.
- Rollbacks of a whole request after an error is raised: the steps that write and then raise (a refresh on a revoked device, a failed purchase) are modelled as the service leaves the rows.
- Calendar: instants are integers; a change of UTC offset inside the business day, time-zone conversion and the default business hours are parameters. `SlotsDependOnBusyUnion` is stated for intervals of positive length that start by the day's end, as the query returns them.
- LimitHoldsIffStampsDistinct: takes reading the clock and running the pipeline as one step, so stamps reach Redis in clock order; for other orders LimitHoldsWhileNothingMissing gives a sufficient condition only.
- LimitHoldsInEveryWindow: asks for stamps in clock order, for the same reason.
- InvariantAlongRun: asks for stamps in clock order, for the same reason.
- RequestKeepsInvariant: asks for a stamp no earlier than those already run, for the same reason.
- DecisionIsExact: asks for a stamp no earlier than those already run, for the same reason.
- Limiter: time is a real number, clocks of Redis and the application agree; lockouts, key prefixes and the choice between the branches.
- Handoff eligibility, minimum screening, suppression of repeated offers, TwiML and the decryption of the target phone, which becomes the flag `hasTarget`; the call events and preview payload.
- Call status: the default rank 0 for unknown status names cannot occur under the table's check constraint; call creation, raw provider events, soft deletion of calls.
- Paging with `sort_by=started_at` or ascending order, for which the cursor compares the wrong column or direction; the individual filters are one flag `matches`. `ORDER BY` is an insertion sort on sequences, so rows of equal time come in one fixed order.
- Token refresh: the access token travels with its refresh token, an empty access token in an answer and the biometric copy are not modelled; the requests' own retries are further 401s.
- Sessions: IP addresses, user agents, access-token expiry and device registration details.
- Billing: subscribing, cancelling, payment methods and Stripe webhooks, which also reset the carry; an overage rule that names an unknown plan; an idempotency key that is the empty string, which the code treats as none.
- Artifacts: a pass that raises stops between stages, and a failed database flush in it does not undo them; a call row that is gone, the stored texts, memory items, notifications, the stale-summary refresh and the retry endpoint. The structured extraction a summary sets is taken to be non-empty.
- Spam scoring from keywords and the automatic block: the score is a parameter in thousandths; the block insert omits non-null columns.
- Numbers: webhook repair, call modes and forwarding verification; the phone number itself.
- Prompts: the wording of templates and blocks is a parameter with the shape the source's texts have; the platform's substitution is taken to be a single left-to-right pass over the five placeholders; `{{today_date}}`, `{{caller_phone}}` and `{{user_timezone}}` stay in place; stripping covers spaces, tabs and line ends only; formatting errors in a greeting.
- Quiet hours, contact override precedence, voice catalog sync and the SMS stub: only easy members.
