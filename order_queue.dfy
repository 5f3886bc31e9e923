/**
 * The order priority queue (internal/order/queue.go): a binary min-heap under
 * `Less` kept in a slice, a pause gate for claims, and a bounded wake-signal
 * buffer (`Notify`) that producers write to without blocking.
 */
module OrderQueue {
  import opened OrderModel

  /** Capacity of the buffered `Notify` channel. */
  const NotifyCapacity: nat := 100

  /**
   * The comparator: higher priority first, then earlier creation time, then
   * lower ID. `Less(a, b)` means `a` is served before `b`.
   */
  predicate Less(a: Order, b: Order) {
    if a.Priority != b.Priority then a.Priority > b.Priority
    else if a.CreatedAt != b.CreatedAt then a.CreatedAt < b.CreatedAt
    else a.ID < b.ID
  }

  /** A higher priority wins whatever the timestamps and IDs. */
  lemma HigherPriorityFirst(a: Order, b: Order)
    requires a.Priority > b.Priority
    ensures Less(a, b) && !Less(b, a)
  {
  }

  /** Equal priority: the earlier order wins; equal timestamps too: the lower ID wins. */
  lemma TieBreaks(a: Order, b: Order)
    requires a.Priority == b.Priority
    ensures a.CreatedAt < b.CreatedAt ==> Less(a, b) && !Less(b, a)
    ensures a.CreatedAt == b.CreatedAt ==> (Less(a, b) <==> a.ID < b.ID)
  {
  }

  /** `Less` is a strict order, total on orders with distinct IDs. */
  lemma LessIsStrictTotalOrder(a: Order, b: Order, c: Order)
    ensures !Less(a, a)
    ensures Less(a, b) ==> !Less(b, a)
    ensures Less(a, b) && Less(b, c) ==> Less(a, c)
    ensures a.ID != b.ID ==> Less(a, b) || Less(b, a)
  {
  }

  /** "Not served before" is transitive (it is the reflexive companion of `Less`). */
  lemma NotLessTransitive(a: Order, b: Order, c: Order)
    requires !Less(a, b) && !Less(b, c)
    ensures !Less(a, c)
  {
  }

  /** Orders of the declared categories are served Urgent, then VIP, then Normal. */
  lemma CategoriesServedInOrder(u: Order, v: Order, n: Order)
    requires u.Type == Urgent && v.Type == VIP && n.Type == Normal
    requires u.Priority == PriorityOf(u.Type) && v.Priority == PriorityOf(v.Type)
    requires n.Priority == PriorityOf(n.Type)
    ensures Less(u, v) && Less(v, n) && Less(u, n)
  {
    DeclaredPriorities();
  }

  /** The heap shape: no element is served before its parent. */
  ghost predicate IsHeap(s: seq<Order>) {
    forall i, j :: 0 < j < |s| && i == (j - 1) / 2 ==> !Less(s[j], s[i])
  }

  /** The root of a heap is served no later than any element. */
  lemma {:induction false} HeapRootIsLeast(s: seq<Order>, i: nat)
    requires IsHeap(s) && i < |s|
    ensures !Less(s[i], s[0])
    decreases i
  {
    if i > 0 {
      var p := (i - 1) / 2;
      HeapRootIsLeast(s, p);
      assert !Less(s[i], s[p]);
      NotLessTransitive(s[i], s[p], s[0]);
    }
  }

  /** Every element of a heap is no earlier than its root. */
  lemma {:induction false} HeapRootIsMinimum(s: seq<Order>)
    requires IsHeap(s) && |s| > 0
    ensures forall x :: x in s ==> !Less(x, s[0])
  {
    forall x | x in s
      ensures !Less(x, s[0])
    {
      var i :| 0 <= i < |s| && s[i] == x;
      HeapRootIsLeast(s, i);
    }
  }

  /** With distinct IDs at most one element is least, so the served order is fixed by the contents. */
  lemma {:induction false} LeastIsUnique(s: seq<Order>, a: Order, b: Order)
    requires forall x, y :: x in s && y in s && x.ID == y.ID ==> x == y
    requires a in s && b in s
    requires forall x :: x in s ==> !Less(x, a)
    requires forall x :: x in s ==> !Less(x, b)
    ensures a == b
  {
    LessIsStrictTotalOrder(a, b, b);
  }

  /**
   * An order no queued order is served before has the highest priority among
   * them, the earliest creation time among those of equal priority, and the
   * lowest ID among those with equal priority and creation time.
   */
  lemma {:induction false} LeastComesFirstByKey(s: seq<Order>, o: Order)
    requires forall x :: x in s ==> !Less(x, o)
    ensures forall x :: x in s ==> x.Priority <= o.Priority
    ensures forall x :: x in s && x.Priority == o.Priority ==> o.CreatedAt <= x.CreatedAt
    ensures forall x :: x in s && x.Priority == o.Priority && x.CreatedAt == o.CreatedAt ==> o.ID <= x.ID
  {
    forall x | x in s
      ensures x.Priority <= o.Priority
      ensures x.Priority == o.Priority ==> o.CreatedAt <= x.CreatedAt
      ensures x.Priority == o.Priority && x.CreatedAt == o.CreatedAt ==> o.ID <= x.ID
    {
      assert !Less(x, o);
    }
  }

  /**
   * Heap shape except possibly between `k` and its parent; `k`'s children are
   * no earlier than that parent.
   */
  ghost predicate HeapExceptUp(s: seq<Order>, k: nat) {
    && k < |s|
    && (forall i, j :: 0 < j < |s| && i == (j - 1) / 2 && j != k ==> !Less(s[j], s[i]))
    && (k > 0 ==> forall j :: 0 < j < |s| && (j - 1) / 2 == k ==> !Less(s[j], s[(k - 1) / 2]))
  }

  /**
   * Heap shape except possibly between `k` and its children; those children
   * are no earlier than `k`'s parent.
   */
  ghost predicate HeapExceptDown(s: seq<Order>, k: nat) {
    && k < |s|
    && (forall i, j :: 0 < j < |s| && i == (j - 1) / 2 && i != k ==> !Less(s[j], s[i]))
    && (k > 0 ==> forall j :: 0 < j < |s| && (j - 1) / 2 == k ==> !Less(s[j], s[(k - 1) / 2]))
  }

  /** Exchanging two positions keeps the same elements. */
  lemma {:induction false} SwapKeepsElements(s: seq<Order>, i: nat, j: nat)
    requires i < |s| && j < |s|
    ensures multiset(s[i := s[j]][j := s[i]]) == multiset(s)
  {
  }

  /** Exchanging an element with its parent, when it is served first, moves the exception up. */
  lemma {:induction false} UpStep(s: seq<Order>, k: nat)
    requires HeapExceptUp(s, k) && k > 0
    requires Less(s[k], s[(k - 1) / 2])
    ensures HeapExceptUp(s[k := s[(k - 1) / 2]][(k - 1) / 2 := s[k]], (k - 1) / 2)
  {
    var p := (k - 1) / 2;
    var t := s[k := s[p]][p := s[k]];
    forall i, j | 0 < j < |t| && i == (j - 1) / 2 && j != p
      ensures !Less(t[j], t[i])
    {
      if j == k {
        LessIsStrictTotalOrder(s[k], s[p], s[p]);
      } else if i == k {
        assert !Less(s[j], s[p]);
      } else if i == p {
        assert !Less(s[j], s[p]);
        LessIsStrictTotalOrder(s[j], s[k], s[p]);
      } else {
        assert !Less(s[j], s[i]);
      }
    }
    if p > 0 {
      var g := (p - 1) / 2;
      forall j | 0 < j < |t| && (j - 1) / 2 == p
        ensures !Less(t[j], t[g])
      {
        assert !Less(s[p], s[g]);
        if j == k {
        } else {
          assert !Less(s[j], s[p]);
          NotLessTransitive(s[j], s[p], s[g]);
        }
      }
    }
  }

  /** When the exception link holds, the whole sequence is a heap. */
  lemma {:induction false} UpDone(s: seq<Order>, k: nat)
    requires HeapExceptUp(s, k)
    requires k > 0 ==> !Less(s[k], s[(k - 1) / 2])
    ensures IsHeap(s)
  {
  }

  /** Exchanging an element with its earlier-served smaller child moves the exception down. */
  lemma {:induction false} DownStep(s: seq<Order>, k: nat, c: nat)
    requires HeapExceptDown(s, k)
    requires c < |s| && (c - 1) / 2 == k && c > 0
    requires forall j :: 0 < j < |s| && (j - 1) / 2 == k ==> !Less(s[j], s[c])
    requires Less(s[c], s[k])
    ensures HeapExceptDown(s[k := s[c]][c := s[k]], c)
  {
    var t := s[k := s[c]][c := s[k]];
    forall i, j | 0 < j < |t| && i == (j - 1) / 2 && i != c
      ensures !Less(t[j], t[i])
    {
      if j == c {
        LessIsStrictTotalOrder(s[c], s[k], s[k]);
      } else if i == k {
        assert !Less(s[j], s[c]);
      } else if j == k {
        assert !Less(s[c], s[i]);
      } else {
        assert !Less(s[j], s[i]);
      }
    }
    forall j | 0 < j < |t| && (j - 1) / 2 == c
      ensures !Less(t[j], t[k])
    {
      assert !Less(s[j], s[c]);
    }
  }

  /** When every child of the exception point is no earlier than it, the whole sequence is a heap. */
  lemma {:induction false} DownDone(s: seq<Order>, k: nat)
    requires HeapExceptDown(s, k)
    requires forall j :: 0 < j < |s| && (j - 1) / 2 == k ==> !Less(s[j], s[k])
    ensures IsHeap(s)
  {
  }

  /** Moves the element at `k` towards the root until the heap shape holds. */
  method SiftUp(s: seq<Order>, k: nat) returns (t: seq<Order>)
    requires HeapExceptUp(s, k)
    ensures IsHeap(t) && multiset(t) == multiset(s) && |t| == |s|
  {
    t := s;
    var j: nat := k;
    while j > 0 && Less(t[j], t[(j - 1) / 2])
      invariant HeapExceptUp(t, j)
      invariant multiset(t) == multiset(s) && |t| == |s|
      decreases j
    {
      var p := (j - 1) / 2;
      UpStep(t, j);
      SwapKeepsElements(t, j, p);
      t := t[j := t[p]][p := t[j]];
      j := p;
    }
    UpDone(t, j);
  }

  /** The child of `k` that is served first (the left one on a tie), as heap sift-down picks it. */
  function EarlierChild(s: seq<Order>, k: nat): (c: nat)
    requires 2 * k + 1 < |s|
    ensures c < |s| && c > 0 && (c - 1) / 2 == k
    ensures forall j :: 0 < j < |s| && (j - 1) / 2 == k ==> !Less(s[j], s[c])
  {
    var l := 2 * k + 1;
    assert forall j :: 0 < j < |s| && (j - 1) / 2 == k ==> s[j] == s[l] || (j == l + 1 && s[j] == s[l + 1]);
    LessIsStrictTotalOrder(s[l], s[l], s[l]);
    if l + 1 < |s| && Less(s[l + 1], s[l]) then
      LessIsStrictTotalOrder(s[l + 1], s[l], s[l]);
      l + 1
    else
      l
  }

  /** Moves the element at `k` towards the leaves until the heap shape holds. */
  method SiftDown(s: seq<Order>, k: nat) returns (t: seq<Order>)
    requires HeapExceptDown(s, k)
    ensures IsHeap(t) && multiset(t) == multiset(s) && |t| == |s|
  {
    t := s;
    var j: nat := k;
    while 2 * j + 1 < |t|
      invariant HeapExceptDown(t, j)
      invariant multiset(t) == multiset(s) && |t| == |s|
      decreases |t| - j
    {
      var c := EarlierChild(t, j);
      if !Less(t[c], t[j]) {
        forall i | 0 < i < |t| && (i - 1) / 2 == j
          ensures !Less(t[i], t[j])
        {
          NotLessTransitive(t[i], t[c], t[j]);
        }
        DownDone(t, j);
        return;
      }
      DownStep(t, j, c);
      SwapKeepsElements(t, j, c);
      t := t[j := t[c]][c := t[j]];
      j := c;
    }
    DownDone(t, j);
  }

  /** One more pending wake signal, unless the buffer is full (then the send is dropped). */
  function Wake(pending: nat): (r: nat)
    ensures pending <= NotifyCapacity ==> r <= NotifyCapacity
    ensures r == pending + 1 <==> pending < NotifyCapacity
    ensures r != pending + 1 ==> r == pending
  {
    if pending < NotifyCapacity then pending + 1 else pending
  }

  class Queue {
    /** The heap slice. */
    var pq: seq<Order>
    /** While set, `Pop` hands out nothing. */
    var paused: bool
    /** Wake signals waiting in the `Notify` buffer. */
    var pending: nat

    ghost predicate Valid()
      reads this
    {
      IsHeap(pq) && pending <= NotifyCapacity
    }

    /** The order a claim would get: the heap root, or null when empty. */
    ghost function Head(): Order?
      reads this
    {
      if |pq| == 0 then null else pq[0]
    }

    /** The head as a frame: the one order a claim may go on to update. */
    ghost function HeadSet(): set<Order>
      reads this
    {
      if |pq| == 0 then {} else {pq[0]}
    }

    constructor ()
      ensures Valid() && pq == [] && !paused && pending == 0
    {
      pq := [];
      paused := false;
      pending := 0;
    }

    /** Non-blocking send on `Notify`. */
    method Signal()
      requires Valid()
      modifies this`pending
      ensures Valid() && pending == Wake(old(pending))
    {
      if pending < NotifyCapacity {
        pending := pending + 1;
      }
    }

    /** Non-blocking receive on `Notify`: takes one wake signal when one is waiting. */
    method Receive() returns (got: bool)
      requires Valid()
      modifies this`pending
      ensures Valid() && got == (old(pending) > 0)
      ensures pending == if got then old(pending) - 1 else old(pending)
    {
      got := pending > 0;
      if got {
        pending := pending - 1;
      }
    }

    /** Sets the pause gate; unpausing also sends a wake signal. The contents do not change. */
    method SetPaused(p: bool)
      requires Valid()
      modifies this`paused, this`pending
      ensures Valid() && pq == old(pq) && paused == p
      ensures pending == if p then old(pending) else Wake(old(pending))
    {
      paused := p;
      if !p {
        Signal();
      }
    }

    /** Inserts an order under the heap order and sends a wake signal. */
    method Push(o: Order)
      requires Valid()
      modifies this`pq, this`pending
      ensures Valid() && paused == old(paused)
      ensures multiset(pq) == multiset(old(pq)) + multiset{o} && |pq| == old(|pq|) + 1
      ensures pending == Wake(old(pending))
    {
      var s := SiftUp(pq + [o], |pq|);
      pq := s;
      Signal();
    }

    /** Re-submits an order: the same heap insertion as `Push`, with no positional advantage. */
    method PushFront(o: Order)
      requires Valid()
      modifies this`pq, this`pending
      ensures Valid() && paused == old(paused)
      ensures multiset(pq) == multiset(old(pq)) + multiset{o} && |pq| == old(|pq|) + 1
      ensures pending == Wake(old(pending))
    {
      Push(o);
    }

    /**
     * Removes and returns the least order, or returns null and changes nothing
     * when the queue is paused or empty.
     */
    method Pop() returns (o: Order?)
      requires Valid()
      modifies this`pq
      ensures Valid()
      ensures old(paused) || old(|pq|) == 0 ==> o == null && pq == old(pq)
      ensures !old(paused) && old(|pq|) > 0 ==>
        && o == old(Head()) && o != null
        && multiset(pq) == multiset(old(pq)) - multiset{o} && |pq| == old(|pq|) - 1
        && forall x :: x in old(pq) ==> !Less(x, o)
    {
      if paused || |pq| == 0 {
        return null;
      }
      o := pq[0];
      HeapRootIsMinimum(pq);
      var n := |pq| - 1;
      if n == 0 {
        pq := [];
      } else {
        assert pq == [pq[0]] + pq[1..n] + [pq[n]];
        var s := SiftDown([pq[n]] + pq[1..n], 0);
        pq := s;
      }
    }

    /** The order a non-paused `Pop` would return, or null when empty; ignores the pause gate. */
    method Peek() returns (o: Order?)
      requires Valid()
      ensures o == Head()
      ensures o == null <==> |pq| == 0
      ensures o != null ==> o in pq && forall x :: x in pq ==> !Less(x, o)
    {
      if |pq| == 0 {
        return null;
      }
      HeapRootIsMinimum(pq);
      o := pq[0];
    }

    /** The number of queued orders. */
    method Len() returns (n: nat)
      ensures n == |pq|
    {
      n := |pq|;
    }
  }
}
