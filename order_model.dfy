/**
 * The order record and its constant tables (internal/order/model.go).
 * Timestamps are integer ticks supplied by the caller.
 */
module OrderModel {
  import opened Wrappers

  /** Lifecycle of an order: only these three values are ever assigned. */
  datatype OrderStatus = Pending | Processing | Complete

  /** Order categories are open strings in the source; three are declared. */
  type OrderType = string

  const Normal: OrderType := "Normal"
  const VIP: OrderType := "VIP"
  const Urgent: OrderType := "Urgent"

  const PriorityNormal: int := 10
  const PriorityVIP: int := 20
  const PriorityUrgent: int := 99

  /** The category-to-priority table. */
  const PriorityMap: map<OrderType, int> :=
    map[Normal := PriorityNormal, VIP := PriorityVIP, Urgent := PriorityUrgent]

  /**
   * Priority looked up the way a Go map index does it: a category missing
   * from the table reads as the zero value.
   */
  function PriorityOf(t: OrderType): (p: int)
    ensures t in PriorityMap ==> p == PriorityMap[t]
    ensures t !in PriorityMap ==> p == 0
  {
    if t in PriorityMap then PriorityMap[t] else 0
  }

  /** The three declared categories have the documented priorities, strictly increasing. */
  lemma DeclaredPriorities()
    ensures PriorityOf(Normal) == 10 && PriorityOf(VIP) == 20 && PriorityOf(Urgent) == 99
    ensures PriorityOf(Normal) < PriorityOf(VIP) < PriorityOf(Urgent)
    ensures PriorityMap.Keys == {Normal, VIP, Urgent}
  {
  }

  /** Every category outside the table ranks below every declared one. */
  lemma UnlistedRanksLowest(t: OrderType)
    requires t !in PriorityMap
    ensures PriorityOf(t) < PriorityOf(Normal)
  {
  }

  /**
   * An order. The fields the source never writes after creation are
   * constants; status and the two optional timestamps change in place.
   */
  class Order {
    const ID: int
    const Type: OrderType
    const Priority: int
    const CreatedAt: int
    var Status: OrderStatus
    var ProcessedAt: Option<int>
    var CompletedAt: Option<int>

    constructor (id: int, orderType: OrderType, priority: int, createdAt: int)
      ensures ID == id && Type == orderType && Priority == priority && CreatedAt == createdAt
      ensures Status == Pending && ProcessedAt == None && CompletedAt == None
    {
      ID := id;
      Type := orderType;
      Priority := priority;
      CreatedAt := createdAt;
      Status := Pending;
      ProcessedAt := None;
      CompletedAt := None;
    }
  }
}
