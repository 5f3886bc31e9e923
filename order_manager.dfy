/**
 * Order creation and statistics (internal/order/manager.go). The source keeps
 * this state in package-level variables; here it is one `OrderBook` object.
 */
module OrderManager {
  import opened Wrappers
  import opened OrderModel
  import opened OrderQueue
  import opened Events

  /** `lastOrderID` starts at 1000, so the first order gets 1001. */
  const FirstOrderID: int := 1001

  /** How many of the orders have the given category. */
  function CountOfType(os: seq<Order>, t: OrderType): (n: nat)
    ensures n <= |os|
  {
    if os == [] then 0
    else CountOfType(os[..|os| - 1], t) + (if os[|os| - 1].Type == t then 1 else 0)
  }

  /** How many of the orders have a category missing from the priority table. */
  function CountUnlisted(os: seq<Order>): (n: nat)
    ensures n <= |os|
  {
    if os == [] then 0
    else CountUnlisted(os[..|os| - 1]) + (if os[|os| - 1].Type !in PriorityMap then 1 else 0)
  }

  /** How many of the orders are Complete. */
  ghost function CountCompleted(os: seq<Order>): (n: nat)
    reads os
    ensures n <= |os|
  {
    if os == [] then 0
    else CountCompleted(os[..|os| - 1]) + (if os[|os| - 1].Status == Complete then 1 else 0)
  }

  /**
   * The three declared categories and the unlisted ones partition the
   * record: their counts add up to the total.
   */
  lemma {:induction false} CountsPartitionTotal(os: seq<Order>)
    ensures CountOfType(os, Normal) + CountOfType(os, VIP) + CountOfType(os, Urgent) + CountUnlisted(os) == |os|
    decreases |os|
  {
    if os != [] {
      CountsPartitionTotal(os[..|os| - 1]);
    }
  }

  /**
   * The report's "(VIP, Normal)" breakdown accounts for every order exactly
   * when there are no Urgent orders and no orders of an unlisted category.
   */
  lemma {:induction false} BreakdownCoversTotal(os: seq<Order>)
    ensures CountOfType(os, VIP) + CountOfType(os, Normal) == |os|
        <==> CountOfType(os, Urgent) == 0 && CountUnlisted(os) == 0
  {
    CountsPartitionTotal(os);
  }

  /** Appending an order raises exactly the counts it matches. */
  lemma {:induction false} CountsAfterAppend(os: seq<Order>, o: Order, t: OrderType)
    ensures CountOfType(os + [o], t) == CountOfType(os, t) + (if o.Type == t then 1 else 0)
    ensures CountCompleted(os + [o]) == CountCompleted(os) + (if o.Status == Complete then 1 else 0)
  {
    assert (os + [o])[..|os|] == os;
  }

  /** The package-level order state: the ID counter, the record of all orders and the bus link. */
  class OrderBook {
    var lastOrderID: int
    var allOrders: seq<Order>
    var bus: EventBus?<Order>

    /**
     * The record holds the orders in creation order with IDs 1001, 1002, ...
     * up to the counter, each with the priority of its category.
     */
    ghost predicate Valid()
      reads this
    {
      && lastOrderID == FirstOrderID - 1 + |allOrders|
      && forall i :: 0 <= i < |allOrders| ==>
           allOrders[i].ID == FirstOrderID + i && allOrders[i].Priority == PriorityOf(allOrders[i].Type)
    }

    constructor ()
      ensures Valid() && allOrders == [] && bus == null
    {
      lastOrderID := FirstOrderID - 1;
      allOrders := [];
      bus := null;
    }

    /** The bus order events go to (set by the system manager). */
    method SetBus(b: EventBus?<Order>)
      modifies this`bus
      ensures bus == b
    {
      bus := b;
    }

    /**
     * Creates the next order of the given category at tick `now`: a fresh ID
     * one past the last, status Pending, the category's priority. Records it,
     * pushes it on `q` and, when a bus is linked, publishes OrderCreated with it.
     */
    method AddOrder(q: Queue, orderType: OrderType, now: int) returns (o: Order)
      requires Valid() && q.Valid() && (bus != null ==> bus.Valid())
      modifies this`lastOrderID, this`allOrders, q, if bus != null then {bus} else {}
      ensures Valid() && q.Valid() && (bus != null ==> bus.Valid())
      ensures fresh(o) && o.ID == lastOrderID == old(lastOrderID) + 1
      ensures o.Type == orderType && o.Status == Pending && o.Priority == PriorityOf(orderType)
      ensures o.CreatedAt == now && o.ProcessedAt == None && o.CompletedAt == None
      ensures allOrders == old(allOrders) + [o]
      ensures multiset(q.pq) == multiset(old(q.pq)) + multiset{o} && |q.pq| == old(|q.pq|) + 1
      ensures q.paused == old(q.paused) && q.pending == Wake(old(q.pending))
      ensures bus != null ==> Delivered(bus, [Event(OrderCreated, o)])
    {
      lastOrderID := lastOrderID + 1;
      o := new Order(lastOrderID, orderType, PriorityOf(orderType), now);
      allOrders := allOrders + [o];
      q.Push(o);
      if bus != null {
        bus.Publish(Event(OrderCreated, o));
      }
    }

    /** The number of orders ever created: the record's length, which the ID counter tracks. */
    method GetTotalCount() returns (n: nat)
      requires Valid()
      ensures n == |allOrders| && n == lastOrderID - (FirstOrderID - 1)
    {
      n := |allOrders|;
    }

    /** The number of recorded orders of a category. */
    method GetCountByType(orderType: OrderType) returns (n: nat)
      ensures n == CountOfType(allOrders, orderType) && n <= |allOrders|
    {
      n := 0;
      var i := 0;
      while i < |allOrders|
        invariant 0 <= i <= |allOrders|
        invariant n == CountOfType(allOrders[..i], orderType)
      {
        assert allOrders[..i + 1][..i] == allOrders[..i];
        if allOrders[i].Type == orderType {
          n := n + 1;
        }
        i := i + 1;
      }
      assert allOrders[..|allOrders|] == allOrders;
    }

    /** The number of recorded orders whose status is Complete. */
    method GetCompletedCount() returns (n: nat)
      ensures n == CountCompleted(allOrders) && n <= |allOrders|
    {
      n := 0;
      var i := 0;
      while i < |allOrders|
        invariant 0 <= i <= |allOrders|
        invariant n == CountCompleted(allOrders[..i])
      {
        assert allOrders[..i + 1][..i] == allOrders[..i];
        if allOrders[i].Status == Complete {
          n := n + 1;
        }
        i := i + 1;
      }
      assert allOrders[..|allOrders|] == allOrders;
    }
  }

  /** Order IDs in a valid record strictly increase with position, so none is reused. */
  lemma IdsStrictlyIncrease(book: OrderBook, i: nat, j: nat)
    requires book.Valid() && i < j < |book.allOrders|
    ensures book.allOrders[i].ID < book.allOrders[j].ID
    ensures book.allOrders[i] != book.allOrders[j]
  {
  }
}
