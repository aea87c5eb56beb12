# Navo verification model

A Dafny model of the parts of the Navo maritime operations platform that keep state worth reasoning
about, with proofs of what those parts promise. Everything is checked by `dafny verify dfyconfig.toml`;
nothing here runs the platform.

Where the source updates objects in place there are two files: a specification, which gives every
operation as a function from state to state and proves the properties of all runs, and a class whose
methods follow the source branch by branch and are proved to perform exactly those steps and to keep
the specification's invariant as their own `Valid()`. A `...Laws` or `...History` file beside them says
in the rows' own fields, or in the steps of the run, what each operation accepts and what it leaves.
`History.dfy` and `Wrappers.dfy` hold what they share.

| component | files |
|---|---|
| Audit logger: producers, workers, bounded queue, overflow goroutines and drain on close | `AuditDrain.dfy` |
| Realtime subscription protocol between the browser hook and the server | `RealtimeLink.dfy`, `LinkHistory.dfy` |
| Realtime hub: indexes, routing, buffers, counters | `HubState.dfy`, `HubHistory.dfy`, `Hub.dfy` |
| Requests for quotes, quotes and the multi-write award | `RfqSpec.dfy`, `RfqLaws.dfy`, `Rfq.dfy` |
| Dynamic SQL builders, paging and pattern search | `Sql.dfy`, `SqlLaws.dfy`, `Paging.dfy`, `Like.dfy` |
| Login lockout, one login at a time and overlapping | `Lockout.dfy`, `LockoutRaces.dfy` |
| Notification store: whole operations, and the class that performs them | `NotificationSpec.dfy`, `NotificationRest.dfy`, `NotificationLaws.dfy`, `Notifications.dfy` |
| Notifications command by command: attempts, the two indexes, what can still happen to one, failing schedules | `NotificationRuns.dfy`, `NotificationIndexes.dfy`, `NotificationFates.dfy`, `NotificationSchedules.dfy` |
| Port call lifecycle and replayable timeline | `PortCallSpec.dfy`, `PortCallLaws.dfy`, `PortCalls.dfy` |
| Feature-flag cache and evaluation | `FlagSpec.dfy`, `Flags.dfy` |
| Service order lifecycle | `OrderSpec.dfy`, `OrderLaws.dfy`, `ServiceOrders.dfy` |
| Overlapping status changes of port calls and service orders | `StatusRaces.dfy` |
| Webhook delivery | `WebhookSpec.dfy`, `WebhookLaws.dfy`, `Webhooks.dfy` |
| File name sanitiser and storage keys | `Filename.dfy`, `FilenameLaws.dfy` |

Concurrency is modelled by interleaving: a component with goroutines, sockets or several processes is
a state machine whose steps are the points at which the source can be interrupted, and a theorem about
it quantifies over every schedule of those steps. A save or delete of a notification is its three Redis
commands, an overlapping login its check, its comparison and the insert of its record. Where operations
are taken to be atomic instead, "Left out" says so. Clock readings, generated ids, the answers of the
account lookup, the password check, the mail server and HTTP endpoints are parameters of the steps; ids
are fresh, and the clock is read once per operation, or once per step where steps interleave. Amounts of
money are `real`.

Several things the code's comments or layout suggest do not hold of the code. The code is modelled as it
is, and for each of them the true claim is proved, in most cases the exact condition under which the
suggestion holds together with a concrete run in which it fails:

- "Close closes the logger and flushes any pending events" (`pkg/audit/db_logger.go:368`): only when no
  overflow goroutine is in flight at the call (`CloseFlushesAllIff`), and never for an event logged after
  it returned (`LateEventIsStranded`).
- One open socket per hook (`apps/key/src/hooks/useRealtime.ts:81-94`): a second `connect` while the
  first socket is connecting leaves two, and the close event of the first clears the reference to the
  second (`StepKeepsAllInStepIff`).
- The hub's `activeSubscriptions` (`services/realtime/internal/hub/hub.go:293-322`) counts calls, not
  changes (`CounterExactIff`), and a client removed while a message of its is being handled can
  subscribe again and stay in a channel (`LeakIff`).
- A withdrawn quote can be awarded (`services/core/internal/service/rfq.go:384-394`;
  `AwardHonoursWithdrawalIff`).
- The retry limit of three for scheduled notifications
  (`services/notification/internal/service/notification.go:297-308`) is never reached
  (`FailedAttemptIsParked`), and reading or deleting one that a pass has taken up does not cancel it
  (`AttemptedNoMoreIff`, `DeletedForeverIff`).
- The user's list and the pending set of notifications, written by separate commands
  (`services/notification/internal/repository/notification.go:47-75`), do not always follow the record:
  a delete and a save of one notification that overlap can leave a list entry or a pending id without a
  record for good, and a mark-read inside a scheduled send is delivered all the same
  (`RequestAgreesIff`, `GhostFromStart`, `DeletedStaysPendingForever`, `ReadIsStillDelivered`).
- The login lockout (`services/auth/internal/service/auth.go:38-44`) does not bound the guesses of logins
  that overlap by its own limit (`OverlappingGuessesBound`, `OverlappingBoundIsReached`).
- A transition table does not bind overlapping requests: a cancelled port call or order can be confirmed
  (`services/core/internal/service/portcall.go:129-148`; `CheckedChangeSafeIff`).
- A completed order need not have a final price, and completing one can take it away
  (`services/core/internal/repository/serviceorder.go:319-324`; `FinalPriceIff`).
- Setting a flag does not guarantee that the cache stops serving the replaced one
  (`pkg/features/flags.go:302-345`; `SetFlagTakesHoldIff`).
- The service order transition table (`services/core/internal/service/serviceorder.go:436-447`) is not
  the whole set of edges (`EdgesAreExact`), and order statistics cover at most a thousand orders.
- Overlapping failed webhook deliveries are counted once
  (`services/integration/internal/service/webhook.go:171-190`; `CountStaysExactIff`).
- "Limit length" in the file name sanitiser (`pkg/storage/document.go:207`) does not limit it when the
  extension is longer than ten bytes (`LimitHoldsIff`).
- The port call listing reports the caller's own page numbers rather than the ones used
  (`services/core/internal/service/portcall.go:109-121`; `ListPortCalls`).
- A search term is not taken literally when it holds a pattern character
  (`services/core/internal/repository/vendor.go:209-213`; `SearchIsLiteralIff`).

## Model

| member | source | states |
|---|---|---|
| AuditDrain.ExactlyOnePlace | pkg/audit/db_logger.go:69-123 | In every interleaving of log calls, any number of workers, overflow goroutines and close, each event ever logged is in exactly one place: the queue, one worker's hands, one overflow goroutine, or attempted once; an event never logged is in none |
| AuditDrain.StepConserves | pkg/audit/db_logger.go:69-123 | Every step of a producer, worker, overflow goroutine or close keeps that count, event by event |
| AuditDrain.StepKeepsFifo | pkg/audit/db_logger.go:106-123 | The channel holds exactly the accepted events no worker has claimed, in acceptance order, within its capacity, and overflow events are never also accepted |
| AuditDrain.StepKeepsHandshake | pkg/audit/db_logger.go:69-98 | No worker drains before close, and none returns while an event accepted before close is unclaimed |
| AuditDrain.CloseDrainsEarlierEvents | pkg/audit/db_logger.go:369-375 | With at least one worker, when close returns every event the channel took before the close channel was closed has been attempted exactly once |
| AuditDrain.UnattemptedAtClose | pkg/audit/db_logger.go:368-375 | An event is unattempted when close returns exactly when its overflow goroutine still runs or it entered the channel after the last worker looked |
| AuditDrain.CloseFlushesAllIff | pkg/audit/db_logger.go:368-375 | In any reachable state, close called with no log call after it flushes every event whatever the schedule, as its comment says, exactly when at the call no overflow goroutine is in flight and there is a worker or nothing queued |
| AuditDrain.CloseMakesProgress | pkg/audit/db_logger.go:69-98 | After close with no further log calls some worker can always move until close returns, and each step uses up some of a bounded amount of work |
| AuditDrain.CloseReturns | pkg/audit/db_logger.go:369-375 | Every schedule after close without log calls is no longer than the work remaining and can be continued until close returns |
| AuditDrain.SingleWorkerInsertsInOrder | pkg/audit/db_logger.go:69-98 | With one worker the attempted inserts are a prefix of the acceptance order |
| AuditDrain.OverflowOutlivesClose | pkg/audit/db_logger.go:114-122 | A schedule in which close returns while an overflow insert has not happened: the wait group does not cover it |
| AuditDrain.LateEventIsStranded | pkg/audit/db_logger.go:106-123 | With any number of workers, an event queued after close has returned is never attempted, whatever follows |
| AuditDrain.NoWorkersDrainsNothing | pkg/audit/db_logger.go:46-66 | With no workers configured close returns and leaves an earlier event unattempted, so the worker condition above is needed |
| AuditDrain.LogCallLaw | pkg/audit/db_logger.go:106-123 | A log call puts its event in the channel when there is room and leaves it to an overflow goroutine exactly when the channel is full |
| AuditDrain.RoomMeansAccepted | pkg/audit/db_logger.go:106-123 | In every run an event logged while the channel had room is accepted for good and never left to an overflow goroutine, whatever follows |
| AuditDrain.WaitingWorkerServes | pkg/audit/db_logger.go:69-98 | A waiting worker can take the oldest queued event and insert it, before the close and after |
| RealtimeLink.CurrentSocketInStep | apps/key/src/hooks/useRealtime.ts:96-123 | In every run of subscribe, unsubscribe, connection loss and reconnect, overlapping sockets included, applying the messages in flight to the hub's set for the current open connection gives the hook's set less the empty name, hence all of it exactly when the empty name is not in it |
| RealtimeLink.DrainedSetsAgree | apps/key/src/hooks/useRealtime.ts:96-106 | Delivering the whole link after any run leaves the hub's set for the connection equal to the hook's set less the empty name, which the server refuses |
| RealtimeLink.DrainAppliesLink | services/realtime/internal/handler/websocket.go:169-221 | Handling n queued messages in order leaves exactly the replay of the link and changes no other connection |
| RealtimeLink.ReplayResubscribe | apps/key/src/hooks/useRealtime.ts:102-105 | Resubscribing on open rebuilds exactly the hook's set on the server, from whatever it held |
| RealtimeLink.SendKeepsSync | apps/key/src/hooks/useRealtime.ts:253-266 | A subscribe or unsubscribe sent on an open socket keeps that connection in step with the changed set |
| RealtimeLink.StepKeepsInv | apps/key/src/hooks/useRealtime.ts:81-153 | Every event of the hook, the sockets and the server keeps the current connection in step |
| RealtimeLink.OneSocketAllInStep | apps/key/src/hooks/useRealtime.ts:81-140 | When a connect finds no live socket, every open connection is in step, not just the current one |
| RealtimeLink.StepKeepsAllInStepIff | apps/key/src/hooks/useRealtime.ts:81-123 | With overlapping sockets, all open connections stay in step exactly until the hook's set changes while an open one is not the current socket |
| RealtimeLink.StaleCloseCutsOffOpenSocket | apps/key/src/hooks/useRealtime.ts:108-111 | The failing case: the close event of an overlapped socket clears the current reference and a later channel never reaches the open socket |
| RealtimeLink.RealtimeHook.ConnectSocket | apps/key/src/hooks/useRealtime.ts:81-94 | Creates a socket unless the current one is open; the whole new state is the protocol step |
| RealtimeLink.RealtimeHook.OnOpen | apps/key/src/hooks/useRealtime.ts:96-106 | Opens the socket and queues one subscribe message per channel in order; the whole new state is the protocol step |
| RealtimeLink.RealtimeHook.OnClose | apps/key/src/hooks/useRealtime.ts:108-111 | Closes the socket and clears the current reference whichever socket it was; the whole new state is the protocol step |
| RealtimeLink.RealtimeHook.DisconnectSocket | apps/key/src/hooks/useRealtime.ts:143-153 | Starts closing the current socket and clears the reference; the whole new state is the protocol step |
| RealtimeLink.RealtimeHook.SubscribeChannel | apps/key/src/hooks/useRealtime.ts:253-258 | Adds the channel and sends it when the current socket is open; the whole new state is the protocol step |
| RealtimeLink.RealtimeHook.UnsubscribeChannel | apps/key/src/hooks/useRealtime.ts:261-266 | Removes the channel and sends that when the current socket is open; the whole new state is the protocol step |
| RealtimeLink.RealtimeHook.HandleMessage | services/realtime/internal/handler/websocket.go:169-221 | Handles the next message of one connection: an empty name changes nothing, otherwise the hub's set gains or loses the channel |
| LinkHistory.SubsFollowHistory | apps/key/src/hooks/useRealtime.ts:253-266 | In every run the hook's set holds exactly the channels asked for and not given up since, whatever happened to its sockets |
| LinkHistory.ServerFollowsHistory | apps/key/src/hooks/useRealtime.ts:96-123 | And so does the server for every named channel once the open connection's messages have arrived, across any number of reconnects |
| HubState.RoutingMatchesScan | services/realtime/internal/hub/hub.go:217-278 | For every event, the clients selected through the user, organization, workspace and channel indexes are exactly the registered clients a scan with the routing predicate selects |
| HubState.RoutingMatchesScanInEveryRun | services/realtime/internal/hub/hub.go:217-278 | This holds in every reachable hub |
| HubState.EveryReachableHub | services/realtime/internal/hub/hub.go:112-193 | In every reachable hub each index holds under each key exactly the registered clients with it, organizations and workspaces only when non-empty, channel membership of a registered client is its own set, and no bucket is empty |
| HubState.StepKeepsInv | services/realtime/internal/hub/hub.go:112-193 | Every creation, registration, removal and subscription keeps each index holding exactly the registered clients with that key, channel membership equal to each live client's own set, and no bucket empty |
| HubState.RegisterFiles | services/realtime/internal/hub/hub.go:112-145 | Registration files the client under its non-empty keys and nowhere else |
| HubState.UnregisterRemoves | services/realtime/internal/hub/hub.go:147-193 | Removal takes the client out of its bucket, and the bucket out when it empties |
| HubState.UnregisterClearsChannels | services/realtime/internal/hub/hub.go:152-165 | Removal takes the client out of every channel |
| HubState.CounterDrift | services/realtime/internal/hub/hub.go:293-322 | Over every run the subscription counter is off by exactly the repeated subscribes minus the unsubscribes of channels not held |
| HubState.CounterExactIff | services/realtime/internal/hub/hub.go:293-322 | The counter equals the total size of all channel sets exactly when those two balance |
| HubState.RepeatedSubscribeCountsTwice | services/realtime/internal/hub/hub.go:293-306 | A run in which one subscription is counted twice |
| HubState.LateSubscribeLeaks | services/realtime/internal/hub/hub.go:293-306 | A run in which a removed client subscribes and stays in the channel |
| HubState.UnregisterKeepsDrift | services/realtime/internal/hub/hub.go:152-165 | Removing a client lowers the counter by exactly the subscriptions it removes |
| HubState.LeakIff | services/realtime/internal/hub/hub.go:293-306 | The channel index stays free of removed clients exactly as long as no removed client subscribes |
| HubState.LeakIsPermanent | services/realtime/internal/hub/hub.go:293-322 | Such a leftover entry stays until that client unsubscribes from the channel itself |
| HubHistory.TargetIff | services/realtime/internal/hub/hub.go:235-278 | With no users named, a connected client is a target exactly when it is of the event's workspace; or, for an event without a workspace, of its organization; or subscribed to its kind and neither of another organization nor of another workspace; or subscribed to its entity and not of another organization |
| HubHistory.UserTargetIff | services/realtime/internal/hub/hub.go:217-233 | An event that names users goes to exactly their connected clients |
| HubHistory.TenantIsolation | services/realtime/internal/hub/hub.go:235-278 | No client of another organization gets an organization's event unless it is of the event's workspace |
| HubHistory.RoutingFollowsHistory | services/realtime/internal/hub/hub.go:112-278 | In every run the targets are told by the history alone: registered and not unregistered since, created in the event's workspace or organization, or subscribed to its kind or entity and not unsubscribed since and created within its scope |
| HubHistory.UserRoutingFollowsHistory | services/realtime/internal/hub/hub.go:112-233 | The same for an event that names users, by the user a client was created for |
| Hub.Hub.NewClient | services/realtime/internal/model/client.go:36-50 | Creates a client with an empty buffer and set, known to no index |
| Hub.Hub.RegisterClient | services/realtime/internal/hub/hub.go:112-145 | Registers a client; the hub's maps and counters become the register step of HubState |
| Hub.Hub.UnregisterClient | services/realtime/internal/hub/hub.go:147-193 | Removes a registered client and closes its channel, once; a client not yet or no longer registered is left alone |
| Hub.Hub.LeaveChannels | services/realtime/internal/hub/hub.go:152-165 | The loop over the client's channels takes it out of all of them and counts those that exist |
| Hub.Hub.Subscribe | services/realtime/internal/hub/hub.go:293-306 | Adds the client to the channel and the channel to its own set, and counts it even when nothing changed |
| Hub.Hub.Unsubscribe | services/realtime/internal/hub/hub.go:308-322 | The reverse, with the bucket dropped when it empties, counted even when nothing changed |
| Hub.Hub.FindTargetIds | services/realtime/internal/hub/hub.go:217-271 | The ids collected branch by branch are those of the scan |
| Hub.Hub.FindTargetClients | services/realtime/internal/hub/hub.go:217-278 | The target list holds each scanned client once, nobody else, and only open channels |
| Hub.Hub.BroadcastEvent | services/realtime/internal/hub/hub.go:195-214 | A broadcast goes once to the end of the queue of each scanned client with room and to nobody else; exactly the full ones are scheduled for removal; every client's broadcasts stay a subsequence of broadcast order and no buffer exceeds 256 |
| Hub.Hub.SendHeartbeats | services/realtime/internal/hub/hub.go:324-338 | A heartbeat goes once to each registered client with room, exactly the full ones are scheduled for removal, and nobody else is touched |
| Hub.Hub.Deliver | services/realtime/internal/hub/hub.go:280-290 | One message to a list without duplicates reaches each listed client with room once and never a closed channel |
| Hub.Client.Next | services/realtime/internal/handler/websocket.go:125-166 | The write pump takes messages from the front of the buffer |
| Hub.Client.TrySend | services/realtime/internal/hub/hub.go:280-290 | The non-blocking send appends when there is room and otherwise changes nothing; it may only be called on an open channel |
| Hub.Hub.Shutdown | services/realtime/internal/hub/hub.go:358-367 | Shutdown closes exactly the registered clients' channels, each once, and empties the client map |
| RfqSpec.EveryReachableDb | services/core/internal/service/rfq.go:113-322 | In every run of atomic operations: an RFQ is awarded exactly when it names a quote, that quote exists, is its own and its only accepted one, and none is still submitted; other RFQs have no accepted or rejected quote; each vendor has at most one quote per RFQ, was invited and was in time |
| RfqSpec.RunKeepsInv | services/core/internal/service/rfq.go:368-517 | The same clauses are kept by every run from any state that has them |
| RfqSpec.AwardKeepsInv | services/core/internal/service/rfq.go:368-407 | An award keeps them |
| RfqSpec.AtMostThreeTransitions | services/core/internal/service/rfq.go:146-322 | Every change of status climbs a rank of at most three, so an RFQ changes status at most three times |
| RfqSpec.WithdrawnQuoteCanBeAccepted | services/core/internal/service/rfq.go:384-394 | A concrete run that withdraws a quote and then awards it |
| RfqSpec.AwardHonoursWithdrawalIff | services/core/internal/service/rfq.go:384-394 | An award leaves every withdrawn quote withdrawn exactly when the quote it names is still submitted |
| RfqSpec.AwardWritesComplete | services/core/internal/service/rfq.go:391-407 | The separate writes of an award, run to the end, give the tables of the atomic award, for every listing order |
| RfqSpec.ResumedAwardConverges | services/core/internal/service/rfq.go:391-407 | An award cut off and retried with the same quote any number of times, each retry itself cut off anywhere, with any operations on other RFQs in between, ends once carried through in the tables of an uninterrupted award after those operations alone |
| RfqSpec.InterruptedAwardConverges | services/core/internal/service/rfq.go:391-407 | After a single crash: a retry of the same award reaches those tables, a retry after the last write is refused, and no other RFQ or its quotes are touched at any point |
| RfqSpec.InterruptedAcceptsOne | services/core/internal/repository/rfq.go:283-291 | Between the first and the last write the interrupted award has accepted its own quote and no other |
| RfqSpec.OtherRetryAcceptsBoth | services/core/internal/service/rfq.go:384-407 | Retrying with another quote after a crash leaves exactly the two named quotes accepted |
| RfqSpec.MarksStick | services/core/internal/repository/rfq.go:418-425 | A mark written during an award is never undone by its later writes |
| RfqSpec.ExpiryPass | services/core/internal/service/rfq.go:494-517 | One expiry pass leaves exactly the excess over a page of a thousand overdue, and changes no RFQ that was not overdue |
| Rfq.RfqService.CreateRfq | services/core/internal/service/rfq.go:36-69 | Creation with its required fields and deadline check: new tables and error are those of the specification |
| Rfq.RfqService.UpdateRfq | services/core/internal/service/rfq.go:113-143 | Editing, in draft only: new tables and error are those of the specification |
| Rfq.RfqService.PublishRfq | services/core/internal/service/rfq.go:146-186 | Publication with its vendor and deadline checks: new tables and error are those of the specification |
| Rfq.RfqService.CloseRfq | services/core/internal/service/rfq.go:189-218 | Closing an open RFQ: new tables and error are those of the specification |
| Rfq.RfqService.CancelRfq | services/core/internal/service/rfq.go:221-251 | Cancelling anything not awarded or cancelled: new tables and error are those of the specification |
| Rfq.RfqService.SubmitQuote | services/core/internal/service/rfq.go:254-322 | Submission with the status, deadline, invitation, duplicate and price checks in their order: new tables and error are those of the specification |
| Rfq.RfqService.WithdrawQuote | services/core/internal/service/rfq.go:442-480 | Withdrawal of a submitted quote of an open RFQ: new tables and error are those of the specification |
| Rfq.RfqService.AwardQuote | services/core/internal/service/rfq.go:368-427 | The award makes exactly the specified row writes, in order, ends in the atomic award's tables, and a refused one writes nothing |
| Rfq.RfqService.RejectOthers | services/core/internal/service/rfq.go:396-402 | The loop rejects the other submitted quotes and no others |
| Rfq.RfqService.CheckExpiredRfqs | services/core/internal/service/rfq.go:494-517 | Expires and counts min(overdue, 1000) RFQs of the page read |
| Rfq.RfqService.CompareQuotes | services/core/internal/service/rfq.go:334-365 | Lowest and highest are prices of the list and bound all of them, the average times the count is the sum, and it lies between the two; zeros for no quotes |
| RfqLaws.CreateLaw | services/core/internal/service/rfq.go:36-69 | When a creation is accepted, and the draft row it writes |
| RfqLaws.UpdateLaw | services/core/internal/service/rfq.go:113-143 | Only a draft is edited, and only in the fields given |
| RfqLaws.PublishLaw | services/core/internal/service/rfq.go:146-186 | Published exactly when a draft with vendors and not past its deadline; the status alone changes |
| RfqLaws.CloseLaw | services/core/internal/service/rfq.go:189-218 | Closed exactly when open; the status alone changes |
| RfqLaws.CancelLaw | services/core/internal/service/rfq.go:221-251 | Cancelled exactly when neither awarded nor cancelled; the status alone changes |
| RfqLaws.SubmitLaw | services/core/internal/service/rfq.go:254-322 | A quote is taken exactly from an invited vendor without one on the RFQ, while it is open and in time, with both prices positive; the row it writes, dollars for a missing currency |
| RfqLaws.SubmitRefusal | services/core/internal/service/rfq.go:254-300 | Which check refuses it, in their order |
| RfqLaws.AwardLaw | services/core/internal/service/rfq.go:368-407 | An RFQ is awarded exactly while open or closed, to any quote of its own; that quote is accepted, its other submitted ones are rejected, nothing else changes |
| RfqLaws.AwardRefusal | services/core/internal/service/rfq.go:368-390 | Which check refuses it, in their order |
| RfqLaws.WithdrawLaw | services/core/internal/service/rfq.go:442-480 | Withdrawn exactly when submitted on an open RFQ; the quote's status alone changes |
| RfqLaws.ExpireLaw | services/core/internal/service/rfq.go:494-517 | The expiry job expires exactly the RFQs of its page past their deadline |
| RfqLaws.LifeEndsAwarded | services/core/internal/service/rfq.go:36-407 | Created, published and quoted in time, an RFQ is awarded to the quote, closed first or not, for every vendor, deadline and pair of positive prices, whatever the tables hold otherwise |
| RfqLaws.StatusIsLastGiven | services/core/internal/service/rfq.go:36-517 | In every run an RFQ has the status the last accepted operation on it gives |
| Sql.ListVendors | services/core/internal/repository/vendor.go:158-246 | For every filter and every table, the count statement counts the matching rows and the list statement returns the asked page of them, through the placeholder numbers it generated, past the literal condition, with the clamped page and size |
| Sql.BuildVendorWhere | services/core/internal/repository/vendor.go:173-219 | Placeholder k refers to argument k for every combination of filters, and the clause means the conjunction of the filters present |
| Sql.ListPortCalls | services/core/internal/repository/portcall.go:117-192 | The same for port calls; the page numbers the service reports are the ones used exactly when the caller's were both positive |
| Sql.BuildPortCallWhere | services/core/internal/repository/portcall.go:117-156 | The same meaning for the six port call filters |
| Sql.UpdatePortCall | services/core/internal/repository/portcall.go:220-283 | For every table the generated statement is the field-wise overlay on the one row, with the update time; no fields given, no statement |
| Sql.BuildSets | services/core/internal/repository/portcall.go:220-264 | The SET list assigns exactly the given columns, numbered in order |
| Sql.AddCompare | services/core/internal/repository/vendor.go:185-213 | Appending a numbered condition adds exactly that condition to the clause's meaning |
| Sql.ListReadsPage | services/core/internal/repository/vendor.go:221-246 | Limit and offset appended after the clause read the right page and leave the clause's meaning alone |
| Sql.VendorPagesCoverMatches | services/core/internal/repository/vendor.go:221-246 | Asking the listing for as many pages as its own total and page size call for yields every matching row of the table once and in order, and the total is their number |
| Sql.PortCallPagesCoverMatches | services/core/internal/repository/portcall.go:158-192 | So does asking the port call listing, by the page size it uses, which is the one it reports exactly when the filter gives a positive one |
| Paging.AllPagesAreAllRows | services/core/internal/repository/vendor.go:230-246 | Pages 1 to ceil(total / size) put together are all rows in order, for every accepted size |
| Paging.RowIsOnOnePage | services/core/internal/repository/vendor.go:230-246 | Row i is on page i / size + 1, at place i modulo size, and on no other page |
| Paging.ShortPageIsLast | services/core/internal/repository/vendor.go:230-246 | Only the last page or one past it is not full |
| Like.SearchFindsSubstring | services/core/internal/repository/vendor.go:209-213 | A search term without pattern characters finds exactly the names containing it, up to case |
| Like.SearchIsLiteralIff | services/core/internal/repository/vendor.go:209-213 | The search is literal for every name exactly when the term has no percent, underscore or backslash: nothing escapes them |
| SqlLaws.FilterPicks | services/core/internal/repository/vendor.go:221-246 | A filtered listing holds exactly the rows that pass, each once and in table order |
| SqlLaws.VendorFilterLaw | services/core/internal/repository/vendor.go:173-219 | The columns, values and pattern a vendor listing filters on, each filter only when it is given |
| SqlLaws.VendorSearchLaw | services/core/internal/repository/vendor.go:209-213 | Searching by a plain term finds exactly the vendors whose name has it somewhere, up to ASCII case |
| SqlLaws.PortCallFilterLaw | services/core/internal/repository/portcall.go:117-156 | The columns a port call listing filters on, the ETA bounds inclusive |
| SqlLaws.UpdateLaw | services/core/internal/repository/portcall.go:220-283 | For every column: an update writes each given field to its own column of the one row and the update time to its own, and leaves every other column and row as it was |
| Like.EscapedMatchesItself | services/core/internal/repository/vendor.go:209-213 | A term with a backslash before each pattern character would match itself and nothing else |
| Like.UnderscoresCount | services/core/internal/repository/vendor.go:209-213 | Underscores match exactly the texts of their number |
| Like.FoldAlikeIff | services/core/internal/repository/vendor.go:209-213 | Two texts fold alike exactly when they agree up to the case of ASCII letters |
| Lockout.AtMostMaxGuessesPerWindow | services/auth/internal/service/auth.go:36-66 | For every history with nondecreasing times, any half-open window as long as the lockout holds at most MaxLoginAttempts failed password comparisons for one email |
| Lockout.WindowCounted | services/auth/internal/repository/user.go:150-159 | Every failed comparison in a window is among the failures the check counts at its end |
| Lockout.ClosedWindowAtMostTwice | services/auth/internal/service/auth.go:38-44 | With the window closed at both ends, twice as many is the bound for every history and every positive lockout |
| Lockout.ClosedWindowHoldsTwice | services/auth/internal/service/auth.go:38-44 | Twice as many do fit, for every email and every configuration with at least one attempt allowed: the comparison is strict |
| Lockout.PauseUnlocks | services/auth/internal/service/auth.go:38-44 | With no attempt for the email in the last lockout duration the next login is not refused as locked |
| Lockout.LockedIff | services/auth/internal/service/auth.go:38-44 | A login is refused as locked exactly when at least MaxLoginAttempts earlier ones for its email, within the lockout before it, did not succeed; refused ones count among them, so a lockout lasts as long as enough logins keep coming, whatever other accounts do |
| LockoutRaces.OverlappingGuessesBound | services/auth/internal/service/auth.go:36-66 | With checks, comparisons and the goroutines' inserts of any logins interleaved, a window holds at most MaxLoginAttempts wrong passwords for an email plus the largest number of logins for it that a check could not count: unanswered, or wrong and unrecorded |
| LockoutRaces.OverlappingBoundIsReached | services/auth/internal/service/auth.go:392-409 | That many do fit, for every configuration with at least one attempt allowed, every email and every degree of overlap |
| LockoutRaces.UndisturbedLogin | services/auth/internal/service/auth.go:36-66 | A login nobody overlaps is one of these runs and leaves the log the sequential specification gives |
| Lockout.AuthService.DoLogin | services/auth/internal/service/auth.go:36-110 | One login leaves exactly one record, with the reason of the first check that fails, and succeeds only when none does |
| Lockout.AuthService.GetRecentFailedAttempts | services/auth/internal/repository/user.go:150-159 | Counts the failed attempts for the email after an instant, up to case |
| Lockout.RecordLaw | services/auth/internal/service/auth.go:36-66 | One login against any log: locked exactly when the attempts for its email that did not succeed and are later than the lockout before it reach MaxLoginAttempts; otherwise unknown, inactive, wrong password or logged in exactly as its account is |
| Lockout.OutcomesInEveryHistory | services/auth/internal/service/auth.go:36-66 | Over every history a login succeeds exactly when the account is active, the password right, and fewer than MaxLoginAttempts earlier logins for its email within the lockout before it did not succeed; and which reason is recorded otherwise |
| NotificationRuns.AttemptsInEveryRun | services/notification/internal/service/notification.go:40-97 | However the single commands of sends, mark-reads, deletes and passes interleave: at most one delivery attempt per notification, never before its scheduled second, so its retry count never passes one; a pending id was scheduled and is scored by that second; a list entry is the creator's |
| NotificationRuns.StepKeepsInv | services/notification/internal/repository/notification.go:33-77 | The invariant behind it is kept by every step: the start of a send, a mark-read, a delete or the pass's save, each of their three commands, and the pass's listing, reads and deliveries |
| NotificationRuns.RunKeepsInv | services/notification/internal/repository/notification.go:33-191 | Hence by every run from any state that has it |
| NotificationRuns.PassAttemptsWhatItRead | services/notification/internal/service/notification.go:291-312 | Whatever the handlers do meanwhile, what the pass has read has been attempted exactly once and has left the pending set when the worker rests |
| NotificationRuns.PassAttemptsDueOnce | services/notification/internal/service/notification.go:291-312 | So has a listed notification with a record that nobody deletes |
| NotificationRuns.ListedIsAttemptedIff | services/notification/internal/repository/notification.go:121-143 | By the end of a pass a listed notification has been attempted exactly when its record was there at the moment the pass read it |
| NotificationRuns.UndisturbedIsWhole | services/notification/internal/repository/notification.go:33-77 | The three commands of a save or a delete with nothing between them are the whole save or delete |
| NotificationRuns.FailedAttemptIsParked | services/notification/internal/service/notification.go:297-308 | A failed attempt ends in sending, outside the pending set, and is never marked failed: the limit of three is out of reach |
| NotificationIndexes.IndexesAgreeIff | services/notification/internal/repository/notification.go:41-75 | Every continuation that begins nothing on an id and finishes what is part-way on it leaves the id pending exactly when its record waits and listed exactly when it has a record, if and only if no two commands to come are opposed and, the record once written, the others lead there |
| NotificationIndexes.RequestAgreesIff | services/notification/internal/repository/notification.go:174-191 | A delete, a mark-read, a send or the pass's save leaves that agreement, in every continuation that begins nothing else on the id, exactly when at its start no save (for a delete) or delete (for a save) of the id has its list command to come and no scheduled send its pending command |
| NotificationIndexes.OrderlyIndexes | services/notification/internal/repository/notification.go:33-191 | From the start, a run whose saves and deletes of an id all begin so has the agreement whenever none of them is part-way |
| NotificationIndexes.QuietStepAgrees | services/notification/internal/repository/notification.go:41-75 | Every single command keeps an id on the way to agreement |
| NotificationIndexes.ReachDisagreement | services/notification/internal/repository/notification.go:41-75 | From any other state some order of the commands to come ends in disagreement |
| NotificationFates.AttemptedNoMoreIff | services/notification/internal/service/notification.go:291-312 | No continuation attempts a notification (again) exactly when it has been attempted, or when the pass has not read it and either nothing can list it (not listed, not pending, no scheduled send of it part-way) or nothing can supply its record (no record, no copy held by a handler, no save short of its record command) |
| NotificationFates.DeletedForeverIff | services/notification/internal/repository/notification.go:174-191 | A notification without a record stays so in every continuation exactly when neither the pass, nor a handler, nor a save short of its record command holds a copy of it |
| NotificationFates.PendingWithoutRecordIff | services/notification/internal/repository/notification.go:121-143 | A pending id without a record stays so in every continuation, so every pass lists it and none delivers it, exactly when nobody holds a copy and nothing part-way takes it out of the pending set |
| NotificationFates.ListedWithoutRecordIff | services/notification/internal/repository/notification.go:99-119 | A list entry without a record stays so in every continuation exactly when nobody holds a copy and no delete part-way takes it off the list |
| NotificationSchedules.GhostListEntry | services/notification/internal/repository/notification.go:48-58 | A delete between the record and the list command of a mark-read leaves a list entry without a record |
| NotificationSchedules.GhostFromStart | services/notification/internal/repository/notification.go:174-191 | Such a schedule starts one send from the empty store, and no continuation takes the entry away |
| NotificationSchedules.ReadStaysPending | services/notification/internal/repository/notification.go:60-72 | A mark-read between the list and the pending command of a scheduled send leaves the notification read, untried and pending |
| NotificationSchedules.ReadIsStillDelivered | services/notification/internal/service/notification.go:246-258 | From the start, the next pass then delivers it |
| NotificationSchedules.DeletedStaysPendingForever | services/notification/internal/repository/notification.go:174-191 | A delete in that gap leaves a pending id without a record, in every continuation |
| NotificationSchedules.DeleteComesTooLate | services/notification/internal/service/notification.go:291-312 | The next notification of a pass, deleted before its turn, is delivered all the same and its record is back |
| NotificationRest.PassIsRun | services/notification/internal/service/notification.go:291-312 | A pass nobody disturbs is one of these runs and leaves the store the sequential specification gives |
| NotificationRest.OperationKeepsRest | services/notification/internal/service/notification.go:40-127 | Every operation run on its own keeps both indexes agreeing with every record, and the rest of the invariant |
| Notifications.NotificationService.SaveNotification | services/notification/internal/repository/notification.go:33-77 | The record, the user's list and the pending set after a save, as the specification's step |
| Notifications.NotificationService.SendNotification | services/notification/internal/service/notification.go:40-97 | Immediate delivery or queueing, as the specification's step |
| Notifications.NotificationService.ProcessNotification | services/notification/internal/service/notification.go:114-127 | The status each kind of delivery leaves and whether it failed, as the specification's step |
| Notifications.NotificationService.ProcessPendingNotifications | services/notification/internal/service/notification.go:291-312 | The pass over the due records read beforehand, as the specification's step |
| Notifications.NotificationService.MarkAsRead | services/notification/internal/service/notification.go:246-258 | Marking one notification read, as the specification's step |
| Notifications.NotificationService.MarkAllAsRead | services/notification/internal/repository/notification.go:146-171 | Marking a user's unread notifications, as the specification's step |
| Notifications.NotificationService.DeleteNotification | services/notification/internal/repository/notification.go:174-191 | Deletion from the records and both indexes, as the specification's step |
| NotificationLaws.QueueLaw | services/notification/internal/service/notification.go:40-97 | A send scheduled for later leaves a queued record, pending under its second, listed under its creation's, and no attempt |
| NotificationLaws.SendLaw | services/notification/internal/service/notification.go:40-127 | Any other is attempted at once: in-app delivered, push sent, email sent or failed as the mail server answers, any other kind failed; listed, not pending |
| NotificationLaws.PassLaw | services/notification/internal/service/notification.go:291-312 | A pass attempts exactly the pending notifications whose second has come, once each, gives each the status of its kind and the mail's answer, and takes them out of the pending set; nothing else changes |
| NotificationLaws.RetryLaw | services/notification/internal/service/notification.go:297-308 | A failed turn counts one failure and marks the record failed at its third, on any record |
| NotificationLaws.MarkReadLaw | services/notification/internal/service/notification.go:246-258 | Marking one read sets its status and time, takes it out of the pending set and changes nothing else |
| NotificationLaws.MarkAllLaw | services/notification/internal/repository/notification.go:146-171 | Afterwards each of the user's records is read: the unread ones marked with this time, otherwise unchanged and no longer pending; the read ones, everybody else's and every list entry as they were |
| NotificationLaws.DeleteLaw | services/notification/internal/repository/notification.go:174-191 | Deleting takes out the record and both index entries and nothing else |
| PortCallSpec.TimelineReplays | services/core/internal/service/portcall.go:129-240 | In every run from creation the status events chain draft to the current status through legal edges, at most six of them; the ETA events replay to the current ETA in seconds; and a berth or agent event appears once if the value was set after creation, else never |
| PortCallSpec.RunKeepsInv | services/core/internal/service/portcall.go:129-240 | The clauses hold from any starting row |
| PortCallSpec.TimelineIsAppendOnly | services/core/internal/service/portcall.go:163-240 | The timeline only grows, and a refused operation changes neither row nor timeline |
| PortCallSpec.AppendedStatus | services/core/internal/service/portcall.go:163-183 | The events one update appends move the status replay to the new status |
| PortCallSpec.AppendedEta | services/core/internal/service/portcall.go:204-227 | They move the ETA replay to the new ETA in seconds |
| StatusRaces.WaitingWritesSafeIff | services/core/internal/service/portcall.go:129-148 | For a row whose status changes are read, checked and written in separate statements: the writes to come keep to the transition table in every order exactly when they all write one status, which the row has or may move to |
| StatusRaces.CheckedChangeSafeIff | services/core/internal/service/portcall.go:140-148 | A change that has passed its check leaves only such writes exactly when no change to another status was waiting at the check |
| StatusRaces.RacingChangesSafeIff | services/core/internal/service/serviceorder.go:94-113 | The condition for port calls and for service orders, whose tables climb a rank |
| StatusRaces.CancelledComesBack | services/core/internal/service/portcall.go:322-346 | The failing case for both: a cancel and a confirmation overlap and the cancelled row is confirmed |
| StatusRaces.UndisturbedChange | services/core/internal/service/portcall.go:129-148 | A change nobody overlaps is the plain update's |
| PortCalls.PortCallService.UpdateWithUser | services/core/internal/service/portcall.go:129-160 | A refused transition changes nothing; otherwise the row is overlaid and the events appended |
| PortCalls.PortCallService.CreateUpdateTimelineEvents | services/core/internal/service/portcall.go:163-240 | Appends at most four events, in order |
| PortCalls.PortCallService.ChangeStatusTo | services/core/internal/service/portcall.go:374-389 | Arrival and departure also set their actual times |
| PortCalls.PortCallService.ValidateStatusTransition | services/core/internal/service/portcall.go:322-346 | Accepts exactly the edges of the table |
| PortCalls.PortCallService.ConfirmBerthAt | services/core/internal/service/portcall.go:392-398 | Always accepted; sets berth and terminal and logs the first berth only |
| PortCalls.PortCallService.AssignAgentTo | services/core/internal/service/portcall.go:401-406 | Always accepted; sets the agent and logs the first one only |
| PortCallLaws.TableLaw | services/core/internal/service/portcall.go:322-346 | The eleven edges of the transition table and no others |
| PortCallLaws.UpdateLaw | services/core/internal/service/portcall.go:129-160 | A plain update is accepted exactly when its status is absent or an edge leads there, and writes exactly the columns given |
| PortCallLaws.EventLaw | services/core/internal/service/portcall.go:163-240 | The events it appends, each exactly when its column changes for the first time (berth, agent) or at all (status, ETA), in order |
| PortCallLaws.ChangeStatusLaw | services/core/internal/service/portcall.go:374-389 | An accepted arrival sets the actual arrival and leaves the actual departure, a departure the reverse, any other change neither; no other column is written |
| PortCallLaws.ConfirmBerthLaw | services/core/internal/service/portcall.go:392-398 | Berth and terminal are written and nothing else; never refused; the first one is logged |
| PortCallLaws.AssignAgentLaw | services/core/internal/service/portcall.go:401-406 | The agent is written and nothing else; never refused; the first one is logged |
| PortCallLaws.ActualTimesAreChanges | services/core/internal/service/portcall.go:374-389 | In every run whose updates give no actual time, the actual arrival is some time exactly when the run has an accepted change to arrived at that time, and the actual departure likewise |
| FlagSpec.EveryFlagWasHeld | pkg/features/flags.go:195-221 | However loads, stores, refreshes and writes interleave, a lookup that hits returns a flag the table held as that key's row no later than the entry's load time, and one that misses a flag the table held no later than now |
| FlagSpec.RunKeepsInv | pkg/features/flags.go:108-221 | The invariant behind it: the same for rows read and not yet stored, and a refresh queue within its capacity |
| FlagSpec.SetFlagTakesHoldIff | pkg/features/flags.go:302-339 | After a flag is set and its key dropped, every continuation that does not write the key serves that flag whenever the key is cached, exactly when at the call every lookup of the key still to be stored has read that same flag |
| FlagSpec.DropTakesHoldIff | pkg/features/flags.go:336-339 | The same seen from the drop, with anything interleaved between the write and it |
| FlagSpec.CachedFlagsAreRows | pkg/features/flags.go:302-345 | When this process is the only writer and writes no key while a lookup of it is still to be stored, then once every setter has returned each cached flag is the current row |
| FlagSpec.LateStoreServesReplacedFlag | pkg/features/flags.go:212-220 | The failing case: a lookup that read before a set and stores after it leaves the replaced flag cached, whatever hits and waits follow |
| Flags.EvaluateFlag | pkg/features/flags.go:138-173 | Workspace override first, organization override next, default last; the enabled list wins over the disabled one; empty ids have no override |
| Flags.FlagService.GetFlag | pkg/features/flags.go:195-221 | With calls one after another, what a lookup returns is the current row; an expired entry is served and queued for a refresh if there is room |
| Flags.FlagService.IsEnabled | pkg/features/flags.go:124-135 | Enabled exactly when the row exists and evaluates to true |
| Flags.FlagService.GetAll | pkg/features/flags.go:176-192 | Every row's evaluation, no key more or less |
| Flags.FlagService.AskBothWays | pkg/features/flags.go:124-192 | The two agree for every key, organization and workspace |
| Flags.FlagService.SetFlag | pkg/features/flags.go:302-339 | Writes the row and drops its cached copy, which keeps the cache equal to the table |
| Flags.FlagService.BackgroundRefresh | pkg/features/flags.go:108-116 | Reloads exactly the queued keys that have a row |
| FlagSpec.EvaluateLaw | pkg/features/flags.go:138-173 | On by the workspace; else, unless off by the workspace, on by the organization; else, unless off by the organization, by default; an empty id has no override |
| FlagSpec.ExpiredEntryIsRefreshed | pkg/features/flags.go:195-221 | The hit of an expired entry queues it, and its refresh leaves the cache with the current row, loaded now |
| OrderSpec.AtMostSixChanges | services/core/internal/service/serviceorder.go:94-392 | Over all entry points every status change climbs a rank of at most six; completed and cancelled are absorbing |
| OrderSpec.EdgesAreExact | services/core/internal/service/serviceorder.go:436-447 | An order can move along the edges of the transition table and exactly three more: draft and sent-RFQ to confirmed, and confirmed to completed |
| OrderSpec.EveryOrder | services/core/internal/service/serviceorder.go:168-392 | In every run a completed date means completed, a confirmed date means vendor and quoted price are present, and both dates mean a final price is |
| OrderSpec.ConfirmedDateRecords | services/core/internal/repository/serviceorder.go:294-307 | The confirmed date is set exactly when the run has an accepted confirm |
| OrderSpec.CompletedDateRecords | services/core/internal/repository/serviceorder.go:310-330 | The completed date is set exactly when the run has an accepted complete |
| OrderSpec.DatesAreWrittenOnce | services/core/internal/repository/serviceorder.go:294-330 | Once set, neither date changes |
| OrderSpec.ConfirmedThenCompletedIsPriced | services/core/internal/service/serviceorder.go:168-263 | A run that confirms and completes through the dedicated operations ends completed and priced, whatever else it does |
| OrderSpec.FinalPriceIff | services/core/internal/repository/serviceorder.go:310-330 | An order has a final price exactly when some accepted update or completion of the run supplied one and no completion without a given or quoted price has come since |
| OrderSpec.CompletedWithoutPrice | services/core/internal/service/serviceorder.go:94-130 | The plain update reaches completed with no vendor, price or date |
| OrderSpec.CompletionErasesPrice | services/core/internal/repository/serviceorder.go:319-324 | Completing without a price sets a final price of 5.0 back to none when none was quoted |
| OrderSpec.StatusCountsAddUp | services/core/internal/service/serviceorder.go:410-433 | The counts by status add up to the number of orders |
| ServiceOrders.OrderService.UpdateOrder | services/core/internal/service/serviceorder.go:94-130 | Edits any field, with the status checked against the table: acceptance and new row are those of the specification |
| ServiceOrders.OrderService.ConfirmOrder | services/core/internal/service/serviceorder.go:168-225 | Confirms from the four early states with vendor and positive price: acceptance and new row are those of the specification |
| ServiceOrders.OrderService.CompleteOrder | services/core/internal/service/serviceorder.go:228-263 | Completes from confirmed or in progress, taking the quoted price when none is given: acceptance and new row are those of the specification |
| ServiceOrders.OrderService.AssignVendorTo | services/core/internal/service/serviceorder.go:266-306 | Refused only for confirmed, in-progress and completed orders: acceptance and new row are those of the specification |
| ServiceOrders.OrderService.StartWorkOn | services/core/internal/service/serviceorder.go:309-347 | From confirmed only: acceptance and new row are those of the specification |
| ServiceOrders.OrderService.CancelOrder | services/core/internal/service/serviceorder.go:350-392 | Refused for completed and cancelled orders: acceptance and new row are those of the specification |
| ServiceOrders.GetStats | services/core/internal/service/serviceorder.go:395-433 | Counts and sums over the newest thousand orders, so the total is the number of orders exactly when there are no more than that |
| OrderLaws.TableLaw | services/core/internal/service/serviceorder.go:436-447 | The fourteen edges of the transition table and no others |
| OrderLaws.UpdateLaw | services/core/internal/service/serviceorder.go:94-130 | A plain update is accepted exactly when its status is absent or an edge leads there, writes exactly the columns given, and never a date |
| OrderLaws.ConfirmLaw | services/core/internal/repository/serviceorder.go:294-307 | A confirmation stores its vendor, its price as the quoted one and its time, and not a final price; accepted exactly from the four early states with a vendor and a positive price |
| OrderLaws.CompleteLaw | services/core/internal/repository/serviceorder.go:310-330 | A completion stores its price, or without one whatever is quoted, and its time; accepted exactly from confirmed and in progress |
| OrderLaws.AssignLaw | services/core/internal/service/serviceorder.go:266-306 | The vendor alone is written, in every state but confirmed, in progress and completed |
| OrderLaws.StartLaw | services/core/internal/service/serviceorder.go:309-347 | The status alone is written, from confirmed only |
| OrderLaws.CancelLaw | services/core/internal/service/serviceorder.go:350-392 | The status alone is written, in every state but completed and cancelled |
| OrderLaws.ColumnIsLastGiven | services/core/internal/service/serviceorder.go:94-392 | In every run each column (status, vendor, both prices, both dates) holds what the last accepted operation that writes it gave |
| OrderLaws.NeverGivenIsInitial | services/core/internal/service/serviceorder.go:94-392 | And its initial value when none did |
| OrderLaws.CountLaw | services/core/internal/service/serviceorder.go:410-433 | The count of a status is the number of orders that have it |
| OrderLaws.SumLaw | services/core/internal/service/serviceorder.go:410-433 | Sums are additive and take an absent price for nothing |
| WebhookSpec.MadeStopsAtFirstSuccess | services/integration/internal/service/webhook.go:231-290 | The attempts made are the outcomes up to the first success, or all of the allotted ones |
| WebhookSpec.SuccessIffAny | services/integration/internal/service/webhook.go:280-311 | A delivery is reported successful exactly when one of its possible attempts would succeed |
| WebhookSpec.BackoffBound | services/integration/internal/service/webhook.go:261-290 | The total sleep is at most delay * n(n+1)/2, reached when every attempt fails after being sent: the loop also sleeps after its last attempt |
| WebhookSpec.DeliveryBackoff | services/integration/internal/service/webhook.go:231-290 | A whole delivery keeps to that bound, and to the bound of one attempt fewer when it succeeds |
| WebhookSpec.SequentialCountIsExact | services/integration/internal/service/webhook.go:274-311 | Deliveries one after another keep the failure count at the failures since the last success |
| WebhookSpec.CountStaysExactIff | services/integration/internal/service/webhook.go:171-312 | With deliveries overlapping in any way, the stored count is the number of failures since the last success after every prefix of a run exactly when each failing delivery ends with as many such failures as there were at its dispatch |
| WebhookSpec.SameStreakIff | services/integration/internal/service/webhook.go:274-311 | As long as no success comes in between, that is exactly when no other delivery finished meanwhile |
| WebhookSpec.SuccessCanHideOverlap | services/integration/internal/service/webhook.go:274-311 | With one in between, a count that was overwritten meanwhile can still come out exact |
| WebhookSpec.OverlappingFailuresCountOnce | services/integration/internal/service/webhook.go:171-190 | Any number of failing deliveries dispatched together raise the count by one |
| Webhooks.Webhook.DeliverWebhook | services/integration/internal/service/webhook.go:195-312 | Saved exactly once with the record of the attempts made, or not at all when the payload cannot be marshalled; the failure count is reset or raised by one and still counts the failures since the last success |
| Webhooks.Webhook.Attempt | services/integration/internal/service/webhook.go:229-311 | The retry loop's record and total sleep, for every sequence of outcomes and every retry count |
| Webhooks.DispatchEvent | services/integration/internal/service/webhook.go:171-192 | Delivers to exactly the active webhooks not tied to another workspace, in order |
| WebhookLaws.SuccessLaw | services/integration/internal/service/webhook.go:231-290 | When an attempt is the first to meet a code from 200 to 299 the delivery stops there, successful, with that many attempts and that code |
| WebhookLaws.FailureLaw | services/integration/internal/service/webhook.go:229-311 | When none does, all the configured attempts are made, none for a non-positive number, and the delivery has failed with what the last one met |
| WebhookLaws.CodeLaw | services/integration/internal/service/webhook.go:261-290 | The code reported is that of the last response among the attempts, none without one |
| WebhookLaws.PauseLaw | services/integration/internal/service/webhook.go:231-290 | The n-th attempt sleeps n times the delay, unless its request could not be built or it succeeded |
| WebhookLaws.StreakLaw | services/integration/internal/service/webhook.go:274-311 | The failures since the last success are the length of the final stretch of failures |
| Filename.SanitizingTwice | pkg/storage/document.go:195-217 | Sanitising is idempotent on every byte string |
| Filename.SanitizeFilename | pkg/storage/document.go:195-217 | The ten replacement passes and the limit amount to one simultaneous character map and the limit |
| Filename.SanitizedIsSafe | pkg/storage/document.go:200-205 | The result is not empty and holds no unsafe character |
| Filename.LimitHoldsIff | pkg/storage/document.go:207-215 | The result keeps to 100 bytes exactly when the mapped name does or its extension is at most ten long; when truncated it is at most ninety plus the extension, which it keeps |
| Filename.LongExtensionExceedsLimit | pkg/storage/document.go:207-215 | A dot and a hundred characters are left at 101 |
| Filename.BuildStorageKey | pkg/storage/document.go:110-132 | The key is the present parts joined in order, ending in timestamp, dash and sanitised name |
| Filename.NameAddsOneSegment | pkg/storage/document.go:127-132 | Whatever name is uploaded, it adds exactly one segment to the key, its last |
| Filename.SplitJoin | pkg/storage/document.go:110-132 | When no part contains a slash, splitting the key gives back its parts |
| FilenameLaws.BaseLaw | pkg/storage/document.go:195-198 | The base name is what stands between the last slash that something follows and the slashes at the end; a dot for the empty path, a slash for slashes alone |
| FilenameLaws.MapLaw | pkg/storage/document.go:200-205 | Of its characters exactly the ten unsafe ones become an underscore |
| FilenameLaws.LimitLaw | pkg/storage/document.go:207-215 | A name and its extension are kept up to a hundred characters, and beyond that the extension and ninety characters of the name |
| FilenameLaws.KeyLaw | pkg/storage/document.go:110-132 | The storage key in full, with the workspace and the entity only when given |

## Left out

- Hub.Hub.RegisterClient: a registration whose id collides with a live client overwrites it in the source; ids are taken to be fresh, and the indexes hold ids where the source holds references.
- Hub.Hub.BroadcastEvent: the order in which one broadcast visits its clients is whatever the map iteration gives; the marshalled message is named by the broadcast's number.
- The hub counters for connections, messages and broadcasts: kept by the class, no run property is stated of them.
- AuditDrain.ExactlyOnePlace: an insert that fails in the database counts as attempted; the source logs it and drops the event.
- RealtimeLink.CurrentSocketInStep: messages read after the hub removed a connection are not delivered in this protocol model; their effect on the hub's channel index is what `HubState.LeakIff` is about. The reconnect timer and its attempt limit are not modelled, a reconnect may happen at any time.
- RfqSpec.EveryReachableDb: operations are atomic in it; crash points are covered for the award only, and two requests racing on the same RFQ are not.
- Sql.UpdatePortCall: column values are opaque; types, NULL arguments and the database's own rounding of times are not modelled. Ties in ORDER BY are taken to be broken in one fixed order.
- Like.SearchFindsSubstring: case folding covers ASCII letters only.
- Lockout.AtMostMaxGuessesPerWindow: each login's record is visible before the next login for that email; overlapping ones are the subject of `LockoutRaces.OverlappingGuessesBound`. A count query that fails, which the source takes for zero failures, is not modelled.
- NotificationRuns.AttemptsInEveryRun: there is one worker. The expiry of Redis keys, which leaves dangling ids in the sorted sets, is not modelled, and a failed Redis call only as a handler's save or delete that never issues its next command; nor are templates and the published events.
- PortCallSpec.TimelineReplays: operations are atomic in it; for requests that overlap only the row's status is followed (`StatusRaces.dfy`), not the timeline they leave. Every append to the timeline succeeds; the functions of the repository that store and read timeline events are not part of this model, an append-only list stands for them. Times are kept at full precision in the row, and updates after creation are not checked for a departure before the arrival, as in the source.
- FlagSpec.EveryFlagWasHeld: a flag's row is never deleted, as nothing in the service deletes one; failed database calls leave the state as it is.
- OrderSpec.EveryOrder: operations are atomic in it and in the other run theorems of orders; for requests that overlap only the status is followed (`StatusRaces.dfy`).
- ServiceOrders.OrderService.UpdateOrder: description, quantity, unit, specifications, requested date and currency, which no operation decides on, are omitted.
- Webhooks.Webhook.DeliverWebhook: signing, headers, response bodies and manual edits of the webhook during a delivery are not modelled; a negative delay, which sleeps not at all, is not either.
- Filename.SanitizeFilename: truncation at byte ninety may split a multi-byte character; characters here stand for bytes.
- Stale-connection cleanup in the hub: its sends go to a channel only its own goroutine reads, so it makes no progress worth stating.
- The WebSocket handler's own replies, which can race with the hub's close, and the newline batching of its write loop.
- Session refresh, logout, password reset and password rules in the auth service.
- The audit query, RFQ list and update, service order and invitation list builders: further instances of the builder pattern proved for vendors and port calls.
- Deletion of port calls and service orders, and creation checks on required fields other than for RFQs.
- HTTP handlers, routing, CORS, metrics, tracing, logging and start-up code.
- React components, PDF export, seeds, mail templates, JWT signing, S3 and bcrypt.
- Weather, exchange rates, analytics and distance helpers.
