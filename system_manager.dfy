/**
 * The coordinator (internal/manager/manager.go): it owns the queue, the bot
 * pool and the event bus, links the order record to the bus, and runs each
 * bot's claim loop. A goroutine's loop is modelled one iteration at a time
 * (`ClaimStep`); the races it takes part in are inputs.
 */
module Manager {
  import opened Wrappers
  import OM = OrderModel
  import opened OrderQueue
  import opened Events
  import BM = BotModel
  import opened BotPool
  import opened BotWorker
  import opened OrderManager
  import opened SummaryFormat
  import opened Seqs

  /** A bot's cancellation context: `cancelled` is set by its cancel function. */
  class CancelScope {
    var cancelled: bool

    constructor ()
      ensures !cancelled
    {
      cancelled := false;
    }
  }

  /** What one iteration of a bot's loop did. */
  datatype LoopStep =
    | Stopped                                    // the context was cancelled: the loop returns
    | Claimed(order: OM.Order, completed: bool)  // an order was popped and processed
    | Woken                                      // nothing to claim; a wake signal was consumed
    | Blocked                                    // nothing to claim and no signal: the loop waits

  class SystemManager {
    const queue: Queue
    const pool: Pool
    const bus: EventBus<OM.Order>
    /** The order package's state, shared with the order functions. */
    const book: OrderBook
    var cancelFuncs: map<string, CancelScope>

    /** The components are consistent and the order record publishes on this bus. */
    ghost predicate Valid()
      reads this, queue, pool, bus, book
    {
      && queue.Valid() && pool.Valid() && bus.Valid() && book.Valid()
      && book.bus == bus
    }

    /** A new manager over an empty queue, pool and bus, with the order record linked to the bus. */
    constructor (book: OrderBook)
      requires book.Valid()
      modifies book`bus
      ensures Valid() && this.book == book && book.allOrders == old(book.allOrders)
      ensures fresh(queue) && fresh(pool) && fresh(bus)
      ensures queue.pq == [] && !queue.paused && pool.bots == [] && bus.subscribers == map[] && cancelFuncs == map[]
    {
      queue := new Queue();
      pool := new Pool();
      bus := new EventBus<OM.Order>();
      this.book := book;
      cancelFuncs := map[];
      new;
      book.SetBus(bus);
    }

    /**
     * Creates an order with the queue paused, then unpauses it: the order is
     * recorded, queued and announced, and the queue ends unpaused whatever
     * its state before.
     */
    method AddOrder(orderType: OM.OrderType, now: int) returns (o: OM.Order)
      requires Valid()
      modifies queue, book`lastOrderID, book`allOrders, bus
      ensures Valid() && !queue.paused
      ensures fresh(o) && o.ID == book.lastOrderID == old(book.lastOrderID) + 1
      ensures o.Type == orderType && o.Status == OM.Pending && o.Priority == OM.PriorityOf(orderType) && o.CreatedAt == now
      ensures o.ProcessedAt == None && o.CompletedAt == None
      ensures book.allOrders == old(book.allOrders) + [o]
      ensures multiset(queue.pq) == multiset(old(queue.pq)) + multiset{o}
      ensures queue.pending == Wake(Wake(old(queue.pending)))
      ensures Delivered(bus, [Event(OrderCreated, o)])
    {
      queue.SetPaused(true);
      o := book.AddOrder(queue, orderType, now);
      queue.SetPaused(false);
    }

    /**
     * Adds a bot of the tier and registers a fresh cancellation context under
     * its ID; `b` and `ctx` are what the started loop runs with. `newID`
     * stands for the random ID generator's output.
     */
    method AddBot(botType: BM.BotType, newID: string) returns (id: string, b: BM.Bot, ctx: CancelScope)
      requires Valid()
      modifies pool, this`cancelFuncs
      ensures Valid()
      ensures id == newID && b.ID == id && fresh(b) && fresh(ctx) && !ctx.cancelled
      ensures b.Type == botType && b.Status == BM.Idle && b.CurrentOrderID == None
      ensures pool.bots == old(pool.bots) + [b]
      ensures cancelFuncs == old(cancelFuncs)[id := ctx]
    {
      ctx := new CancelScope();
      b := pool.AddBot(botType, newID);
      id := b.ID;
      cancelFuncs := cancelFuncs[id := ctx];
    }

    /** The context `RemoveBot(id)` would cancel, as a set of at most one. */
    ghost function TargetScope(id: string): set<CancelScope>
      reads this, pool
    {
      var k := TargetIndex(pool.bots, id);
      if k >= 0 && pool.bots[k].ID in cancelFuncs then {cancelFuncs[pool.bots[k].ID]} else {}
    }

    /**
     * Removes the bot `BotPool.TargetIndex` picks (the last one for the empty
     * ID); its context, if registered, is cancelled and unregistered. No
     * other bot or context is written; with no such bot nothing changes.
     */
    method RemoveBot(id: string)
      requires Valid()
      modifies pool, pool.Target(id), this`cancelFuncs, TargetScope(id)
      ensures Valid()
      ensures TargetIndex(old(pool.bots), id) < 0 ==> pool.bots == old(pool.bots) && cancelFuncs == old(cancelFuncs)
      ensures TargetIndex(old(pool.bots), id) >= 0 ==>
        var r := old(pool.bots)[TargetIndex(old(pool.bots), id)];
        && pool.bots == RemoveAt(old(pool.bots), TargetIndex(old(pool.bots), id))
        && r.Status == BM.Offline && r.CurrentOrderID == old(r.CurrentOrderID)
        && cancelFuncs == old(cancelFuncs) - {r.ID}
        && (r.ID in old(cancelFuncs) ==> old(cancelFuncs)[r.ID].cancelled)
    {
      var r := pool.RemoveBot(id);
      if r == null {
        return;
      }
      if r.ID in cancelFuncs {
        cancelFuncs[r.ID].cancelled := true;
        cancelFuncs := cancelFuncs - {r.ID};
      }
    }

    /**
     * Runs the order on the bot and reports the outcome: a completed order is
     * announced as OrderCompleted; an interrupted one is reset to Pending,
     * re-queued and announced as OrderCancelled.
     */
    method ProcessAndEmit(b: BM.Bot, ord: OM.Order, now: int, timerFired: bool) returns (completed: bool)
      requires Valid()
      modifies b, ord, queue`pq, queue`pending, bus
      ensures Valid() && queue.paused == old(queue.paused)
      ensures completed == timerFired
      ensures b.CurrentOrderID == None && ord.ProcessedAt == Some(now)
      ensures completed ==>
        && b.Status == BM.Idle && ord.Status == OM.Complete
        && ord.CompletedAt == Some(now + DurationOf(b.Type))
        && queue.pq == old(queue.pq) && queue.pending == old(queue.pending)
        && Delivered(bus, [Event(OrderCompleted, ord)])
      ensures !completed ==>
        && b.Status == BM.Offline && ord.Status == OM.Pending
        && ord.CompletedAt == old(ord.CompletedAt)
        && multiset(queue.pq) == multiset(old(queue.pq)) + multiset{ord}
        && queue.pending == Wake(old(queue.pending))
        && Delivered(bus, [Event(OrderCancelled, ord)])
    {
      var handed;
      completed, handed := ProcessOrder(b, ord, now, timerFired, false);
      if completed {
        bus.Publish(Event(OrderCompleted, ord));
      } else {
        ord.Status := OM.Pending;
        queue.PushFront(ord);
        bus.Publish(Event(OrderCancelled, ord));
      }
    }

    /**
     * The claimed branch of a bot's loop: announces OrderAssigned for the
     * popped order, then processes it and announces the outcome.
     */
    method HandleClaim(b: BM.Bot, ord: OM.Order, now: int, timerFired: bool) returns (completed: bool)
      requires Valid()
      modifies b, ord, queue`pq, queue`pending, bus
      ensures Valid() && queue.paused == old(queue.paused)
      ensures completed == timerFired
      ensures b.CurrentOrderID == None && ord.ProcessedAt == Some(now)
      ensures completed ==> && queue.pq == old(queue.pq) && queue.pending == old(queue.pending)
                            && ord.Status == OM.Complete && b.Status == BM.Idle
                            && ord.CompletedAt == Some(now + DurationOf(b.Type))
      ensures !completed ==> && multiset(queue.pq) == multiset(old(queue.pq)) + multiset{ord}
                             && queue.pending == Wake(old(queue.pending))
                             && ord.Status == OM.Pending && b.Status == BM.Offline
                             && ord.CompletedAt == old(ord.CompletedAt)
      ensures Delivered(bus, [Event(OrderAssigned, ord), Event(if completed then OrderCompleted else OrderCancelled, ord)])
    {
      var taken := Event(OrderAssigned, ord);
      bus.Publish(taken);
      label Announced:
      completed := ProcessAndEmit(b, ord, now, timerFired);
      var outcome := Event(if completed then OrderCompleted else OrderCancelled, ord);
      DeliveredChain(old(bus.buffers), old@Announced(bus.buffers), bus.buffers, bus.owner, [taken], [outcome]);
      assert [taken] + [outcome] == [taken, outcome];
    }

    /**
     * One iteration of a bot's loop with context `ctx`. A cancelled context
     * stops it. Otherwise it pops the least order; if there is one, it
     * announces OrderAssigned and processes it. If there is none (empty or
     * paused queue) it consumes a wake signal when one is waiting.
     */
    method ClaimStep(b: BM.Bot, ctx: CancelScope, now: int, timerFired: bool) returns (step: LoopStep)
      requires Valid()
      modifies b, queue`pq, queue`pending, bus, queue.HeadSet()
      ensures Valid() && queue.paused == old(queue.paused)
      ensures step.Stopped? <==> old(ctx.cancelled)
      ensures step.Claimed? <==> !old(ctx.cancelled) && !old(queue.paused) && |old(queue.pq)| > 0
      ensures step.Woken? <==> !old(ctx.cancelled) && (old(queue.paused) || |old(queue.pq)| == 0) && old(queue.pending) > 0
      ensures !step.Claimed? ==> queue.pq == old(queue.pq) && Delivered(bus, [])
      ensures !step.Claimed? ==> unchanged(b) && unchanged(old(queue.HeadSet()))
      ensures queue.pending ==
        if step.Woken? then old(queue.pending) - 1
        else if step.Claimed? && !step.completed then Wake(old(queue.pending))
        else old(queue.pending)
      ensures step.Claimed? ==>
        var o := step.order;
        && o == old(queue.Head())
        && (forall x :: x in old(queue.pq) ==> !Less(x, o))
        && step.completed == timerFired
        && b.CurrentOrderID == None && o.ProcessedAt == Some(now)
        && (step.completed ==> multiset(queue.pq) == multiset(old(queue.pq)) - multiset{o}
                               && o.Status == OM.Complete && b.Status == BM.Idle
                               && o.CompletedAt == Some(now + DurationOf(b.Type)))
        && (!step.completed ==> multiset(queue.pq) == multiset(old(queue.pq))
                                && o.Status == OM.Pending && b.Status == BM.Offline
                                && o.CompletedAt == old(step.order.CompletedAt))
        && Delivered(bus, [Event(OrderAssigned, o), Event(if step.completed then OrderCompleted else OrderCancelled, o)])
    {
      if ctx.cancelled {
        DeliveredNothing(bus.buffers, bus.owner);
        return Stopped;
      }
      var ord := queue.Pop();
      if ord == null {
        DeliveredNothing(bus.buffers, bus.owner);
        var got := queue.Receive();
        step := if got then Woken else Blocked;
        return;
      }
      ghost var popped := queue.pq;
      var completed := HandleClaim(b, ord, now, timerFired);
      if !completed {
        assert multiset(queue.pq) == multiset(popped) + multiset{ord};
      }
      step := Claimed(ord, completed);
    }

    /** The end-of-run report: the six counters in the template, readable back from the text. */
    method GetSummary() returns (report: string)
      requires Valid()
      ensures var st := Stats(|book.allOrders|, CountOfType(book.allOrders, OM.VIP), CountOfType(book.allOrders, OM.Normal),
                              CountCompleted(book.allOrders), ActiveIn(pool.bots), |queue.pq|);
        report == Summary(st) && ParseSummary(report) == Some(st)
    {
      var total := book.GetTotalCount();
      var vip := book.GetCountByType(OM.VIP);
      var normal := book.GetCountByType(OM.Normal);
      var completed := book.GetCompletedCount();
      var activeBots := pool.GetActiveBotsCount();
      var pending := queue.Len();
      var st := Stats(total, vip, normal, completed, activeBots, pending);
      report := Summary(st);
      SummaryRoundTrip(st);
    }
  }
}
