# Order dispatch core, modelled in Dafny

This project models the order-dispatch core of an order controller written in Go. A restaurant's orders go into a shared priority queue. Cooking bots claim the most urgent order, process it for a tier-dependent time, and either complete it or, when the bot is removed mid-way, hand it back to the queue. Every step is announced on an in-memory publish/subscribe bus. At the end the system renders a fixed-format summary.

Each Go file of the core becomes one Dafny module:

| module | file | what it holds |
|---|---|---|
| `OrderModel` | internal/order/model.go | order statuses, the category→priority table, the `Order` object |
| `OrderQueue` | internal/order/queue.go | the comparator `Less`; the binary heap with sift-up/sift-down; the `Queue` class with its pause gate and its bounded wake-signal buffer (capacity 100) |
| `OrderManager` | internal/order/manager.go | `OrderBook`, which holds the package-level ID counter, the record of all orders and the bus link; order creation; the counting queries |
| `BotModel` | internal/bot/model.go | bot statuses, the tier→duration table, the `Bot` object |
| `BotPool` | internal/bot/pool.go | the `Pool` class over a slice of bots: add, remove by ID or last, count active, filtered visit |
| `BotWorker` | internal/bot/worker.go | `ProcessOrder`, the processing state machine |
| `Events` | internal/event/eventbus.go | the `EventBus` class: subscribe, publish without blocking into buffers of capacity 10, unsubscribe |
| `SummaryFormat` | internal/manager/manager.go | the `%d` rendering of the summary and a parser that inverts it |
| `Manager` | internal/manager/manager.go | `SystemManager`: the paused submission bracket, the cancel map, requeue on interruption, one iteration of a bot's loop, the summary |
| `Seqs`, `Wrappers` | — | the slice splice, an index search, the `Option` type |

Modelling choices:

- Objects that the source mutates through shared pointers are classes: orders, bots, the queue, the pool, the bus, the order record and the manager. Fields the source never writes after creation are `const`: an order's ID, type, priority and creation time, and a bot's ID and tier.
- Pure tables and formatting are functions, proved with lemmas.
- The heap is a `seq<Order>` field. `Push` sifts up and `Pop` sifts down, and both loops are proved against a multiset specification and the heap invariant.
- The `Notify` channel is a count of pending wake signals, capped at 100. A send to a full buffer is dropped.
- A subscriber channel is a handle. The bus holds each handle's buffer and whether it is closed. The ghost map `owner` records the type and slot of every subscribed handle. The invariant `Consistent` keeps that index exact and every subscribed buffer open and within capacity.
- What a publish delivers is stated per handle: each subscribed buffer is offered, in order, exactly the events of its own type (`DeliveredTo`). Lemmas chain publishes together and show that a full buffer keeps the first ten arrivals.
- Time is integer ticks supplied by the caller. The `select` race in `ProcessOrder` is the boolean `timerFired`. The random bot ID is an input. A bot's cancellation context is a `CancelScope` object with a `cancelled` flag.

Where the code departs from what its names suggest, the model follows the code:

- Order categories and bot tiers are open strings in the code (`OrderTypeEnum string`, `BotTypeEnum string`), not closed sets. So the model keeps them as strings.
  - A category missing from the table gets priority 0, the Go map zero value, and ranks below every declared category.
  - A tier missing from the table takes the 10-second fallback.
- The summary's "Total Orders Processed" is the number of orders ever created, pending ones included.
- The summary's "(VIP, Normal)" breakdown leaves out Urgent orders. `BreakdownCoversTotal` states exactly when the breakdown adds up to the total.
- An interrupted order goes from Processing back to Pending (set by `processAndEmit`), not only forward through Pending → Processing → Complete. `PushFront` is the same heap insertion as `Push` and gives no positional advantage.

## Model

| member | source | states |
|---|---|---|
| OrderModel.PriorityOf | internal/order/model.go:27-31 | a category's priority is its table entry; a category missing from the table reads as 0 |
| OrderModel.DeclaredPriorities | internal/order/model.go:21-31 | Normal, VIP and Urgent map to 10, 20 and 99, strictly increasing; the table has exactly these three keys |
| OrderModel.UnlistedRanksLowest | internal/order/model.go:27-31 | any category outside the table ranks below Normal |
| OrderModel.Order.constructor | internal/order/manager.go:29-35 | a new order carries the given ID, type, priority and creation time, is Pending and has no processing or completion time |
| OrderQueue.HigherPriorityFirst | internal/order/queue.go:15-16 | a higher priority is served first, whatever the timestamps and IDs |
| OrderQueue.TieBreaks | internal/order/queue.go:18-23 | at equal priority the earlier creation time comes first; at equal priority and time the lower ID comes first |
| OrderQueue.LessIsStrictTotalOrder | internal/order/queue.go:13-24 | `Less` is irreflexive, asymmetric and transitive, and total on orders with distinct IDs |
| OrderQueue.NotLessTransitive | internal/order/queue.go:13-24 | "not served before" is transitive, which is what the heap order relies on |
| OrderQueue.CategoriesServedInOrder | internal/order/queue.go:15-16 | with table priorities, Urgent is served before VIP, and VIP before Normal |
| OrderQueue.HeapRootIsLeast | internal/order/queue.go:102 | in a heap, no element is served before the root |
| OrderQueue.HeapRootIsMinimum | internal/order/queue.go:102 | in a non-empty heap, no element at all is `Less` than the root |
| OrderQueue.LeastIsUnique | internal/order/queue.go:22-23 | among orders with distinct IDs, there is at most one least order |
| OrderQueue.LeastComesFirstByKey | internal/order/queue.go:13-24 | the least order has the highest priority, then the earliest time, then the lowest ID |
| OrderQueue.SwapKeepsElements | internal/order/queue.go:26-28 | swapping two positions keeps the same multiset of orders |
| OrderQueue.UpStep | internal/order/queue.go:83 | one sift-up swap moves the single heap violation one level up |
| OrderQueue.UpDone | internal/order/queue.go:83 | sift-up stops with a heap once the element is not served before its parent |
| OrderQueue.SiftUp | internal/order/queue.go:83 | inserting at the end and sifting up yields a heap over the same multiset |
| OrderQueue.DownStep | internal/order/queue.go:102 | one sift-down swap with the earlier child moves the violation one level down |
| OrderQueue.DownDone | internal/order/queue.go:102 | sift-down stops with a heap once no child is served before the element |
| OrderQueue.EarlierChild | internal/order/queue.go:102 | the chosen child is a child of `k` that no sibling is served before |
| OrderQueue.SiftDown | internal/order/queue.go:102 | moving the last element to the root and sifting down yields a heap over the same multiset |
| OrderQueue.Wake | internal/order/queue.go:87-91 | a non-blocking send adds one pending signal exactly when the buffer has room, and never exceeds 100 |
| OrderQueue.Queue.constructor | internal/order/queue.go:58-65 | a new queue is empty, unpaused and has no pending signal |
| OrderQueue.Queue.Signal | internal/order/queue.go:87-91 | the wake send never blocks and keeps the pending count within the capacity |
| OrderQueue.Queue.Receive | internal/manager/manager.go:120-126 | a receive takes one pending signal exactly when one is waiting |
| OrderQueue.Queue.SetPaused | internal/order/queue.go:67-78 | only the flag changes, never the contents; unpausing sends a wake signal |
| OrderQueue.Queue.Push | internal/order/queue.go:81-92 | exactly the given order is added, the length grows by one, the heap invariant holds, and a wake signal is sent |
| OrderQueue.Queue.PushFront | internal/order/queue.go:106-116 | the same effect as `Push`: the re-queued order is placed by the heap order, not at the front |
| OrderQueue.Queue.Pop | internal/order/queue.go:96-103 | paused or empty: null, nothing changes; otherwise it removes and returns the root, one element is gone, and no element is served before it |
| OrderQueue.Queue.Peek | internal/order/queue.go:119-126 | returns what an unpaused `Pop` would return, ignoring the gate, and null only when empty; nothing changes |
| OrderQueue.Queue.Len | internal/order/queue.go:129-133 | the number of queued orders |
| OrderManager.CountOfType | internal/order/manager.go:60-71 | the count of a category never exceeds the number of orders |
| OrderManager.CountUnlisted | internal/order/model.go:27-31 | the count of orders in categories outside the table never exceeds the number of orders |
| OrderManager.CountCompleted | internal/order/manager.go:74-85 | the completed count never exceeds the number of orders |
| OrderManager.CountsPartitionTotal | internal/order/manager.go:60-71 | the Normal, VIP, Urgent and unlisted counts add up to the total |
| OrderManager.BreakdownCoversTotal | internal/manager/manager.go:157-164 | VIP + Normal equals the total if and only if there are no Urgent and no unlisted orders |
| OrderManager.CountsAfterAppend | internal/order/manager.go:37 | appending an order raises exactly the counts it matches |
| OrderManager.OrderBook.constructor | internal/order/manager.go:11-18 | the record starts empty with the counter at 1000 and no bus |
| OrderManager.OrderBook.SetBus | internal/manager/manager.go:29 | links the order record to the manager's bus |
| OrderManager.OrderBook.AddOrder | internal/order/manager.go:22-50 | the counter goes up by one and becomes the new ID; the order is Pending with its category's priority; it is appended and queued; OrderCreated is published only when a bus is linked |
| OrderManager.OrderBook.GetTotalCount | internal/order/manager.go:53-57 | the number of orders ever created, which the ID counter tracks |
| OrderManager.OrderBook.GetCountByType | internal/order/manager.go:60-71 | the number of recorded orders of the category |
| OrderManager.OrderBook.GetCompletedCount | internal/order/manager.go:74-85 | the number of recorded orders that are Complete |
| OrderManager.IdsStrictlyIncrease | internal/order/manager.go:26-27 | IDs strictly increase in creation order, so no ID is reused |
| BotModel.DeclaredDurations | internal/bot/model.go:21-24 | Fast takes 5 s and Slow 10 s; both tiers have an entry; Fast is quicker |
| BotModel.Bot.constructor | internal/bot/pool.go:30-34 | a new bot has the given ID and tier, is Idle and holds no order |
| BotPool.ActiveIn | internal/bot/pool.go:81-92 | the active count never exceeds the number of bots |
| BotPool.ActiveInAppend | internal/bot/pool.go:35 | the active count splits over concatenation |
| BotPool.ActiveWhenNoneOffline | internal/bot/pool.go:81-92 | with no bot Offline, every bot counts |
| BotPool.FullCountAllActive | internal/bot/pool.go:81-92 | when every bot counts, none is Offline |
| BotPool.VisitsEveryMatch | internal/bot/pool.go:96-104 | every bot passing the filter is visited |
| BotPool.VisitsOnlyMatches | internal/bot/pool.go:96-104 | only pool bots that pass the filter are visited |
| BotPool.VisitAllIsSlice | internal/bot/pool.go:100 | the empty filter visits the whole slice in order |
| BotPool.ActiveAfterRemoval | internal/bot/pool.go:72-75 | taking one bot out lowers the active count by one exactly when that bot was active |
| BotPool.FirstWithID | internal/bot/pool.go:53-60 | the first position with the ID, or -1 exactly when no bot has it |
| BotPool.TargetIndex | internal/bot/pool.go:46-69 | empty pool: none; empty ID: the last bot; otherwise the first bot with that ID |
| BotPool.Pool.constructor | internal/bot/pool.go:17-21 | a new pool is empty |
| BotPool.Pool.AddBot | internal/bot/pool.go:25-37 | exactly one new Idle bot of the tier is appended, earlier bots are kept, the active count grows by one, and a pool with no bot Offline keeps none |
| BotPool.Pool.RemoveBot | internal/bot/pool.go:42-77 | no target: null, nothing changes; otherwise the target is spliced out, the others keep their order, and it is marked Offline |
| BotPool.Pool.TakeOut | internal/bot/pool.go:71-76 | the splice and the Offline write at a known index |
| BotPool.Pool.FindTarget | internal/bot/pool.go:46-65 | the search finds the index `TargetIndex` specifies |
| BotPool.Pool.GetActiveBotsCount | internal/bot/pool.go:81-92 | the number of bots not Offline, at most the pool size |
| BotPool.Pool.ForEach | internal/bot/pool.go:96-104 | visits, in slice order, exactly the bots passing the filter |
| BotPool.TargetOfIDsAgrees | internal/bot/pool.go:46-69 | which bot a removal picks depends only on the bots' IDs: none, the last, or the first with the ID |
| BotPool.IDsRemoveAt | internal/bot/pool.go:72 | splicing a bot out of the slice splices its ID out of the IDs |
| BotPool.RunIDsSize | internal/bot/pool.go:25-77 | a run of calls adds one ID per addition and drops one per removal that found a bot, and those removals are at most the removal calls |
| BotPool.PoolTestRemovals | internal/bot/bot_test.go:31-41 | after the test's two additions, removing by the first bot's ID and then removing the last bot both find a bot and leave the pool empty |
| BotPool.RemoveActive | internal/bot/pool.go:42-77 | on a pool with no bot Offline, a removal splices out the bot `TargetIndex` picks exactly when there is one, otherwise the slice is unchanged; still no bot in the pool is Offline |
| BotPool.Apply | internal/bot/bot_test.go:15-41 | one addition or removal on a pool with no bot Offline: an addition appends one new bot with the given ID, a removal splices out its target or changes nothing, and no bot in the pool is Offline afterwards |
| BotPool.ApplyOnIDs | internal/bot/pool.go:25-77 | what one addition or removal does to the slice is, on the IDs, exactly the reference step `StepIDs` |
| BotPool.Step | internal/bot/bot_test.go:15-41 | one call on a pool with no bot Offline changes its IDs and reports a successful removal exactly as `StepIDs` says |
| BotPool.ApplyAll | internal/bot/bot_test.go:15-41 | a run of calls on a pool with no bot Offline leaves the IDs, and counts the removals that found a bot, exactly as the reference run `RunIDs` does, and leaves no bot Offline |
| BotPool.ActiveAfterCalls | internal/bot/bot_test.go:11-42 | for any interleaving of additions and removals (by ID or by the empty ID) on a new pool, the active count is the number of additions less the number of removals that found a bot, counted by the reference run `RunIDs` |
| BotWorker.DurationOf | internal/bot/worker.go:25-29 | the tier's table entry, or the 10 s fallback for a tier missing from the table |
| BotWorker.DurationsByTier | internal/bot/worker.go:25-29 | declared tiers never reach the fallback; every duration is positive and at most Slow's |
| BotWorker.ProcessOrder | internal/bot/worker.go:15-51 | the entry transitions; then either the order completes, the bot goes Idle and the callback gets the order once, or the bot goes Offline and the order stays Processing; returns true exactly when the order ends Complete |
| Seqs.IndexOf | internal/event/eventbus.go:80-81 | the first position of the element, or -1 exactly when it is absent |
| Seqs.RemoveAt | internal/bot/pool.go:72 | the splice drops one position and keeps the rest in order |
| Seqs.RemoveAtDistinct | internal/event/eventbus.go:83 | splicing a list without repeats leaves no repeats and no trace of the removed element |
| Events.OfferAllKeepsFirst | internal/event/eventbus.go:64-69 | a buffer keeps exactly the first arrivals, in order, up to capacity 10; later sends are dropped |
| Events.OfferAllAppend | internal/event/eventbus.go:58-72 | sending one run after another is sending their concatenation |
| Events.OfKind | internal/event/eventbus.go:62 | the events of one type, in publish order |
| Events.OfKindMembers | internal/event/eventbus.go:62 | the filter keeps exactly the events of the type |
| Events.OfKindAppend | internal/event/eventbus.go:62 | filtering by type distributes over concatenation |
| Events.OfferOne | internal/event/eventbus.go:62-70 | a publish offers the event to the subscribers of its type and to no others |
| Events.ChainOffers | internal/event/eventbus.go:58-72 | a buffer offered two publishes in turn was offered their concatenation |
| Events.AppendIndexed | internal/event/eventbus.go:51 | appending a new channel keeps the slot index exact |
| Events.RemoveKeepsSlots | internal/event/eventbus.go:83 | after a splice every remaining slot is indexed at its shifted position |
| Events.RemoveKeepsOwners | internal/event/eventbus.go:83 | after a splice every indexed channel sits where its shifted entry says |
| Events.RemoveIndexed | internal/event/eventbus.go:83 | a splice keeps the index exact, and the removed channel leaves it |
| Events.DeliveredChain | internal/event/eventbus.go:58-72 | two publishes in a row deliver what publishing both events in order delivers |
| Events.DeliveredNothing | internal/event/eventbus.go:58-72 | publishing nothing changes no buffer |
| Events.SubscribeConsistent | internal/event/eventbus.go:46-53 | subscribing keeps the bus invariant |
| Events.PublishConsistent | internal/event/eventbus.go:58-72 | publishing keeps the bus invariant: no subscribed buffer grows past 10 |
| Events.UnsubscribeConsistent | internal/event/eventbus.go:75-88 | unsubscribing keeps the bus invariant; the removed channel was still open |
| Events.ListOfKind | internal/event/eventbus.go:62-63 | a type's list has no repeats, holds exactly the channels indexed under that type, and all of them are open |
| Events.OfferEach | internal/event/eventbus.go:63-70 | one non-blocking send per listed channel: listed buffers are offered the event once, the others untouched |
| Events.EventBus.ListedOnce | internal/event/eventbus.go:51 | no channel sits on two slots |
| Events.EventBus.constructor | internal/event/eventbus.go:38-42 | a new bus has no subscriber and no channel |
| Events.EventBus.Subscribe | internal/event/eventbus.go:46-53 | a new, empty, open channel is appended to the type's list, and the other lists are untouched |
| Events.EventBus.Publish | internal/event/eventbus.go:58-72 | subscriptions unchanged; every subscriber of the event's type is offered it (dropped if full), and no other buffer changes |
| Events.EventBus.Unsubscribe | internal/event/eventbus.go:75-88 | a listed channel is closed and spliced out, keeping the others' order; an unlisted one (including a second call) changes nothing |
| Events.EventBus.Unlist | internal/event/eventbus.go:82-85 | the channel at the given position was open, is now closed, and is spliced out of its type's list; the bus invariant holds |
| SummaryFormat.Decimal | internal/manager/manager.go:164 | the `%d` rendering is a non-empty digit string with a leading zero only for 0 |
| SummaryFormat.DecimalValue | internal/manager/manager.go:164 | a rendered number reads back as itself |
| SummaryFormat.DigitRunOf | internal/manager/manager.go:164 | a rendered number followed by a non-digit is read as one run of digits |
| SummaryFormat.ReadField | internal/manager/manager.go:164 | a literal, a number and a tail that starts with a non-digit read back as that number and that tail |
| SummaryFormat.RenderParses | internal/manager/manager.go:164 | any template whose literals do not start with a digit renders text that parses back to its numbers |
| SummaryFormat.SummaryRoundTrip | internal/manager/manager.go:164-165 | the summary parses back to exactly the six counters it was made from |
| SummaryFormat.SummaryInjective | internal/manager/manager.go:164-165 | different counters give different summaries |
| Manager.CancelScope.constructor | internal/manager/manager.go:64 | a new context is not cancelled |
| Manager.SystemManager.constructor | internal/manager/manager.go:27-48 | an empty queue, pool and bus, no cancel functions, and the order record linked to the bus |
| Manager.SystemManager.AddOrder | internal/manager/manager.go:51-55 | the order is created Pending with its type's priority, the given creation time and no processing or completion time; it is recorded, queued and announced; the queue ends unpaused with one more order, and both the pause and the push signal |
| Manager.SystemManager.AddBot | internal/manager/manager.go:59-72 | a new Idle bot of the given type, holding no order, is appended, and a fresh uncancelled context is registered under its ID, which is returned |
| Manager.SystemManager.RemoveBot | internal/manager/manager.go:76-90 | no bot: nothing changes; otherwise the bot is removed and marked Offline, its current order left as it was, and its context, if registered, is cancelled and deleted from the map |
| Manager.SystemManager.ProcessAndEmit | internal/manager/manager.go:132-148 | completed: OrderCompleted is published and the queue is untouched; interrupted: the order is Pending again, re-queued and announced as OrderCancelled |
| Manager.SystemManager.HandleClaim | internal/manager/manager.go:109-116 | OrderAssigned is delivered before the outcome event, and the order is never lost; the bot ends holding no order and the order's processing time is now; a completed order is Complete with completion time now plus the bot type's duration and the bot Idle; an interrupted one is Pending again with its completion time unchanged, requeued, and the bot Offline |
| Manager.SystemManager.ClaimStep | internal/manager/manager.go:98-127 | a cancelled context stops the loop; otherwise the least order is claimed and processed, the bot ends holding no order, the order's processing time is now, and its completion time is now plus the bot type's duration if it completed and unchanged if it was interrupted; with nothing to claim, a wake signal is consumed or the loop blocks, and the queue, the bot, the head order and the bus are left as they were |
| Manager.SystemManager.GetSummary | internal/manager/manager.go:156-166 | the report shows the total, VIP, Normal, completed, active-bot and pending counts, and parses back to exactly them |

## Left out

- Goroutines, mutexes and blocking waits. Every operation is atomic. `botLoop` is modelled one iteration at a time (`ClaimStep`); the blocking wait shows up as the `Blocked` outcome. `WaitGroup`, `Wait` and the background ticker are not modelled.
- `LogProcessingStatus`: it only logs, from wall-clock durations in floating point, and it relies on `order.GetOrder`, which is not part of this model.
- Logging (`utils.Log` and the logger file) and the demonstration driver in cmd/main.go.
- Real time. Timestamps are integer ticks supplied by the caller.
- BotWorker.ProcessOrder: a completion time of exactly `now` plus the tier's duration is an idealisation. The source reads the clock again when the timer fires.
- Random bot IDs. The ID comes in as a parameter, and its length is not modelled.
- `context.CancelFunc` is only the `cancelled` flag that `RemoveBot` sets; nothing else of context propagation is modelled.
- The subscriber's side of a channel: receiving from it, and the end-of-stream a reader sees after the close. A channel is a handle whose buffer and closed flag the bus holds.
- The `ForEach` callback's effects. `ForEach` returns the sequence of bots it would hand to the callback. `ProcessOrder`'s callback is likewise the list of orders it receives.
- BotPool.ActiveAfterCalls: the run holds only pool calls. The workers' Processing/Idle writes, which keep a bot active, are not interleaved with it.
- Manager.SystemManager.AddBot: the active-count increase is stated on BotPool.Pool.AddBot, not repeated here.
- OrderQueue.Queue.Pop: the contents after a pop are stated as a multiset, not as the library's exact heap layout.
- The Faulted bot status: it is declared, but no operation assigns it.
- Event types beyond the five declared ones. The source's `EventType` is an open string type (internal/event/eventbus.go:10-23); here it is a closed datatype with one constructor per declared constant, so a publisher cannot use an undeclared type string.
