/**
 * The in-memory publish/subscribe bus (internal/event/eventbus.go). Each
 * subscriber owns a buffered channel of capacity 10; publishing never blocks
 * and drops the event for a subscriber whose buffer is full.
 */
module Events {
  import opened Seqs

  datatype EventType = OrderCreated | OrderPending | OrderAssigned | OrderCompleted | OrderCancelled

  /** An event: its type tag and an opaque payload. */
  datatype Event<D> = Event(kind: EventType, data: D)

  /**
   * A subscriber channel's identity: `Subscribe` hands out a new one each
   * time, and the bus holds the channel's buffer and closed flag under it.
   */
  type Handle = nat

  /** Buffer size of every subscriber channel. */
  const BufferCapacity: nat := 10

  /** A non-blocking send on a bounded buffer: appended when there is room, dropped otherwise. */
  function Offer<T>(buffer: seq<T>, x: T): seq<T> {
    if |buffer| < BufferCapacity then buffer + [x] else buffer
  }

  /** The buffer after a run of non-blocking sends, in order. */
  function OfferAll<T>(buffer: seq<T>, xs: seq<T>): seq<T>
    decreases |xs|
  {
    if xs == [] then buffer else OfferAll(Offer(buffer, xs[0]), xs[1..])
  }

  function Min(a: int, b: int): int {
    if a <= b then a else b
  }

  /**
   * A buffer that has never overflowed keeps exactly the first arrivals in
   * arrival order, up to its capacity: sends past the capacity are the ones
   * dropped.
   */
  lemma {:induction false} OfferAllKeepsFirst<T>(buffer: seq<T>, xs: seq<T>)
    requires |buffer| <= BufferCapacity
    ensures OfferAll(buffer, xs) == (buffer + xs)[..Min(BufferCapacity, |buffer| + |xs|)]
    decreases |xs|
  {
    if xs != [] {
      var b' := Offer(buffer, xs[0]);
      OfferAllKeepsFirst(b', xs[1..]);
      if |buffer| < BufferCapacity {
        assert b' + xs[1..] == buffer + xs;
      } else {
        assert (b' + xs[1..])[..BufferCapacity] == (buffer + xs)[..BufferCapacity];
      }
    }
  }

  /** Sending one run after another is sending their concatenation. */
  lemma {:induction false} OfferAllAppend<T>(buffer: seq<T>, xs: seq<T>, ys: seq<T>)
    ensures OfferAll(buffer, xs + ys) == OfferAll(OfferAll(buffer, xs), ys)
    decreases |xs|
  {
    if xs != [] {
      assert (xs + ys)[1..] == xs[1..] + ys;
      OfferAllAppend(Offer(buffer, xs[0]), xs[1..], ys);
    } else {
      assert xs + ys == ys;
    }
  }

  /** The events of one type, in publish order. */
  function OfKind<D>(es: seq<Event<D>>, t: EventType): (r: seq<Event<D>>)
    ensures |r| <= |es|
  {
    if es == [] then []
    else (if es[0].kind == t then [es[0]] else []) + OfKind(es[1..], t)
  }

  /** The filter keeps exactly the events of type `t`: everything kept has that type, and every such event is kept. */
  lemma {:induction false} OfKindMembers<D>(es: seq<Event<D>>, t: EventType)
    ensures forall e :: e in OfKind(es, t) <==> e in es && e.kind == t
    decreases |es|
  {
    if es != [] {
      OfKindMembers(es[1..], t);
      assert forall e :: e in es <==> e == es[0] || e in es[1..];
    }
  }

  /** Filtering by type distributes over concatenation. */
  lemma {:induction false} OfKindAppend<D>(xs: seq<Event<D>>, ys: seq<Event<D>>, t: EventType)
    ensures OfKind(xs + ys, t) == OfKind(xs, t) + OfKind(ys, t)
    decreases |xs|
  {
    if xs != [] {
      var head := if xs[0].kind == t then [xs[0]] else [];
      assert (xs + ys)[0] == xs[0] && (xs + ys)[1..] == xs[1..] + ys;
      OfKindAppend(xs[1..], ys, t);
      calc {
        OfKind(xs + ys, t);
        head + OfKind(xs[1..] + ys, t);
        head + (OfKind(xs[1..], t) + OfKind(ys, t));
        (head + OfKind(xs[1..], t)) + OfKind(ys, t);
      }
    } else {
      assert xs + ys == ys;
    }
  }

  /** Publishing one event offers it to the subscribers of its type and to no one else. */
  lemma {:induction false} OfferOne<D>(buffer: seq<Event<D>>, e: Event<D>, t: EventType)
    ensures OfferAll(buffer, OfKind([e], t)) == if e.kind == t then Offer(buffer, e) else buffer
  {
    assert [e][1..] == [];
    if e.kind == t {
      assert OfKind([e], t) == [e];
      assert [e][1..] == [];
    }
  }

  /** A channel offered the events of `xs` and then those of `ys` was offered those of `xs + ys`. */
  lemma {:induction false} ChainOffers<D>(b0: seq<Event<D>>, b1: seq<Event<D>>, b2: seq<Event<D>>,
                       xs: seq<Event<D>>, ys: seq<Event<D>>, t: EventType)
    requires b1 == OfferAll(b0, OfKind(xs, t)) && b2 == OfferAll(b1, OfKind(ys, t))
    ensures b2 == OfferAll(b0, OfKind(xs + ys, t))
  {
    OfKindAppend(xs, ys, t);
    OfferAllAppend(b0, OfKind(xs, t), OfKind(ys, t));
  }

  /**
   * `owner` indexes the slots of the lists exactly: each slot's channel maps
   * back to that slot, and each indexed channel sits in the slot it names.
   * So no channel occupies two slots.
   */
  ghost predicate Indexed<C>(subs: map<EventType, seq<C>>, owner: map<C, (EventType, nat)>) {
    && (forall t, i :: t in subs && 0 <= i < |subs[t]| ==> subs[t][i] in owner && owner[subs[t][i]] == (t, i))
    && (forall c :: c in owner ==>
          owner[c].0 in subs && owner[c].1 < |subs[owner[c].0]| && subs[owner[c].0][owner[c].1] == c)
  }

  /** The index after the slot `(t, i)` holding `gone` is removed: later slots of `t` move down by one. */
  ghost function Shifted<C>(owner: map<C, (EventType, nat)>, gone: C, t: EventType, i: nat): map<C, (EventType, nat)> {
    map c | c in owner && c != gone :: if owner[c].0 == t && owner[c].1 > i then (t, owner[c].1 - 1) else owner[c]
  }

  /** Appending a new element to a list keeps the index exact once the new slot is recorded. */
  lemma {:induction false} AppendIndexed<C>(subs: map<EventType, seq<C>>, owner: map<C, (EventType, nat)>, t: EventType, x: C)
    requires Indexed(subs, owner) && x !in owner
    ensures var list := if t in subs then subs[t] else [];
      Indexed(subs[t := list + [x]], owner[x := (t, |list|)])
  {
    var list := if t in subs then subs[t] else [];
    var subs', owner' := subs[t := list + [x]], owner[x := (t, |list|)];
    forall u, i | u in subs' && 0 <= i < |subs'[u]|
      ensures subs'[u][i] in owner' && owner'[subs'[u][i]] == (u, i)
    {
      if u != t || i != |list| {
        assert subs'[u][i] == subs[u][i];
      }
    }
    forall c | c in owner'
      ensures owner'[c].0 in subs' && owner'[c].1 < |subs'[owner'[c].0]| && subs'[owner'[c].0][owner'[c].1] == c
    {
      if c != x && owner[c].0 == t {
        assert subs'[t] == subs[t] + [x];
      }
    }
  }

  /** Removing a slot keeps every remaining slot indexed, at its shifted position. */
  lemma {:induction false} RemoveKeepsSlots<C>(subs: map<EventType, seq<C>>, owner: map<C, (EventType, nat)>, t: EventType, i: nat)
    requires Indexed(subs, owner) && t in subs && i < |subs[t]|
    ensures var subs', owner' := subs[t := RemoveAt(subs[t], i)], Shifted(owner, subs[t][i], t, i);
      forall u, j :: u in subs' && 0 <= j < |subs'[u]| ==> subs'[u][j] in owner' && owner'[subs'[u][j]] == (u, j)
  {
    var subs', owner' := subs[t := RemoveAt(subs[t], i)], Shifted(owner, subs[t][i], t, i);
    forall u, j | u in subs' && 0 <= j < |subs'[u]|
      ensures subs'[u][j] in owner' && owner'[subs'[u][j]] == (u, j)
    {
      var j' := if u == t && j >= i then j + 1 else j;
      assert subs'[u][j] == subs[u][j'] && owner[subs[u][j']] == (u, j');
    }
  }

  /** Removing a slot leaves every remaining indexed element in the slot its shifted entry names. */
  lemma {:induction false} RemoveKeepsOwners<C>(subs: map<EventType, seq<C>>, owner: map<C, (EventType, nat)>, t: EventType, i: nat)
    requires Indexed(subs, owner) && t in subs && i < |subs[t]|
    ensures var subs', owner' := subs[t := RemoveAt(subs[t], i)], Shifted(owner, subs[t][i], t, i);
      forall c :: c in owner' ==>
        owner'[c].0 in subs' && owner'[c].1 < |subs'[owner'[c].0]| && subs'[owner'[c].0][owner'[c].1] == c
  {
    var subs', owner' := subs[t := RemoveAt(subs[t], i)], Shifted(owner, subs[t][i], t, i);
    forall c | c in owner'
      ensures owner'[c].0 in subs' && owner'[c].1 < |subs'[owner'[c].0]| && subs'[owner'[c].0][owner'[c].1] == c
    {
      var u, j := owner[c].0, owner[c].1;
      assert subs[u][j] == c;
      if u == t {
        assert j != i;
      }
    }
  }

  /** Removing a slot keeps the index exact once later slots are shifted; the removed element leaves the index. */
  lemma RemoveIndexed<C>(subs: map<EventType, seq<C>>, owner: map<C, (EventType, nat)>, t: EventType, i: nat)
    requires Indexed(subs, owner) && t in subs && i < |subs[t]|
    ensures Indexed(subs[t := RemoveAt(subs[t], i)], Shifted(owner, subs[t][i], t, i))
    ensures Shifted(owner, subs[t][i], t, i).Keys == owner.Keys - {subs[t][i]}
  {
    RemoveKeepsSlots(subs, owner, t, i);
    RemoveKeepsOwners(subs, owner, t, i);
  }

  /**
   * The channel buffers after publishing `es` in order: each subscribed
   * channel was offered exactly the events of its own type; channels no
   * longer subscribed were left alone.
   */
  ghost predicate DeliveredTo<D>(before: map<Handle, seq<Event<D>>>, after: map<Handle, seq<Event<D>>>,
                                 owner: map<Handle, (EventType, nat)>, es: seq<Event<D>>)
  {
    && after.Keys == before.Keys
    && forall h :: h in before ==>
         after[h] == if h in owner then OfferAll(before[h], OfKind(es, owner[h].0)) else before[h]
  }

  /** Publishing `xs` and then `ys` delivers what publishing `xs + ys` does. */
  lemma {:induction false} DeliveredChain<D>(b0: map<Handle, seq<Event<D>>>, b1: map<Handle, seq<Event<D>>>,
                                             b2: map<Handle, seq<Event<D>>>, owner: map<Handle, (EventType, nat)>,
                                             xs: seq<Event<D>>, ys: seq<Event<D>>)
    requires DeliveredTo(b0, b1, owner, xs) && DeliveredTo(b1, b2, owner, ys)
    ensures DeliveredTo(b0, b2, owner, xs + ys)
  {
    forall h | h in b0 && h in owner
      ensures b2[h] == OfferAll(b0[h], OfKind(xs + ys, owner[h].0))
    {
      ChainOffers(b0[h], b1[h], b2[h], xs, ys, owner[h].0);
    }
  }

  /** Publishing nothing changes no buffer. */
  lemma DeliveredNothing<D>(b: map<Handle, seq<Event<D>>>, owner: map<Handle, (EventType, nat)>)
    ensures DeliveredTo(b, b, owner, [])
  {
    forall h | h in b && h in owner
      ensures b[h] == OfferAll(b[h], OfKind([], owner[h].0))
    {
      assert OfKind<D>([], owner[h].0) == [];
    }
  }

  /**
   * The bus invariant on the bus's state: `owner` indexes the lists exactly,
   * so a channel sits once on one list; every subscribed channel is open and
   * within capacity; handles already handed out are below `next`.
   */
  ghost predicate Consistent<D>(subs: map<EventType, seq<Handle>>, buffers: map<Handle, seq<Event<D>>>,
                                closed: set<Handle>, next: Handle, owner: map<Handle, (EventType, nat)>)
  {
    && Indexed(subs, owner)
    && (forall h :: h in owner ==> h in buffers && h !in closed && |buffers[h]| <= BufferCapacity)
    && (forall h :: h in buffers ==> h < next)
    && (forall h :: h in closed ==> h in buffers)
  }

  /** Subscribing a new handle keeps the invariant. */
  lemma {:induction false} SubscribeConsistent<D>(subs: map<EventType, seq<Handle>>, buffers: map<Handle, seq<Event<D>>>,
                                                  closed: set<Handle>, next: Handle, owner: map<Handle, (EventType, nat)>, t: EventType)
    requires Consistent(subs, buffers, closed, next, owner)
    ensures var list := if t in subs then subs[t] else [];
      Consistent(subs[t := list + [next]], buffers[next := []], closed, next + 1, owner[next := (t, |list|)])
  {
    AppendIndexed(subs, owner, t, next);
  }

  /** Delivering into the buffers keeps the invariant when no subscribed buffer outgrows the capacity. */
  lemma {:induction false} PublishConsistent<D>(subs: map<EventType, seq<Handle>>, buffers: map<Handle, seq<Event<D>>>,
                                                buffers': map<Handle, seq<Event<D>>>, closed: set<Handle>, next: Handle,
                                                owner: map<Handle, (EventType, nat)>, e: Event<D>)
    requires Consistent(subs, buffers, closed, next, owner) && DeliveredTo(buffers, buffers', owner, [e])
    ensures Consistent(subs, buffers', closed, next, owner)
  {
    forall h | h in owner
      ensures |buffers'[h]| <= BufferCapacity
    {
      OfferOne(buffers[h], e, owner[h].0);
    }
  }

  /** Closing and unlisting the channel in slot `(t, i)` keeps the invariant. */
  lemma {:induction false} UnsubscribeConsistent<D>(subs: map<EventType, seq<Handle>>, buffers: map<Handle, seq<Event<D>>>,
                                                    closed: set<Handle>, next: Handle, owner: map<Handle, (EventType, nat)>,
                                                    t: EventType, i: nat)
    requires Consistent(subs, buffers, closed, next, owner) && t in subs && i < |subs[t]|
    ensures subs[t][i] !in closed
    ensures Consistent(subs[t := RemoveAt(subs[t], i)], buffers, closed + {subs[t][i]}, next, Shifted(owner, subs[t][i], t, i))
  {
    RemoveIndexed(subs, owner, t, i);
  }

  /**
   * A type's list under the invariant: no repeats, exactly the channels
   * indexed under that type, all of them open.
   */
  lemma {:induction false} ListOfKind<D>(subs: map<EventType, seq<Handle>>, buffers: map<Handle, seq<Event<D>>>,
                                         closed: set<Handle>, next: Handle, owner: map<Handle, (EventType, nat)>, t: EventType)
    requires Consistent(subs, buffers, closed, next, owner)
    ensures var list := if t in subs then subs[t] else [];
      && Distinct(list)
      && (forall h :: h in list <==> h in owner && owner[h].0 == t)
      && (forall h :: h in list ==> h in buffers && h !in closed)
  {
    var list := if t in subs then subs[t] else [];
    forall i, j | 0 <= i < j < |list|
      ensures list[i] != list[j]
    {
      assert owner[list[i]] == (t, i) && owner[list[j]] == (t, j);
    }
    forall h | h in owner && owner[h].0 == t
      ensures h in list
    {
      assert list[owner[h].1] == h;
    }
  }

  /**
   * One non-blocking send of `e` on each channel of `subs`, in order: the
   * listed buffers are offered `e` once, the others are untouched.
   */
  method OfferEach<D>(buffers: map<Handle, seq<Event<D>>>, subs: seq<Handle>, e: Event<D>) returns (r: map<Handle, seq<Event<D>>>)
    requires Distinct(subs) && forall h :: h in subs ==> h in buffers
    ensures r.Keys == buffers.Keys
    ensures forall h :: h in buffers ==> r[h] == if h in subs then Offer(buffers[h], e) else buffers[h]
  {
    r := buffers;
    var i := 0;
    while i < |subs|
      invariant 0 <= i <= |subs|
      invariant r.Keys == buffers.Keys
      invariant forall h :: h in buffers ==> r[h] == if h in subs[..i] then Offer(buffers[h], e) else buffers[h]
    {
      var h := subs[i];
      assert h !in subs[..i];
      assert forall x :: x in subs[..i + 1] <==> x in subs[..i] || x == h;
      r := r[h := Offer(r[h], e)];
      i := i + 1;
    }
    assert subs[..|subs|] == subs;
  }

  class EventBus<D> {
    /** The subscribed channels of each type, in subscription order. */
    var subscribers: map<EventType, seq<Handle>>
    /** The buffered, not yet received events of every channel made so far. */
    var buffers: map<Handle, seq<Event<D>>>
    /** The channels that have been closed. */
    var closed: set<Handle>
    /** The handle the next `Subscribe` hands out. */
    var next: Handle
    /** Where each subscribed channel sits: its event type and its position on that type's list. */
    ghost var owner: map<Handle, (EventType, nat)>

    /** The subscriber list of a type; a missing entry reads as the empty list. */
    function SubscribersOf(t: EventType): seq<Handle>
      reads this
    {
      if t in subscribers then subscribers[t] else []
    }

    ghost predicate Valid()
      reads this
    {
      Consistent(subscribers, buffers, closed, next, owner)
    }

    /** A valid bus never lists one channel twice. */
    lemma ListedOnce(t: EventType, u: EventType, i: nat, j: nat)
      requires Valid() && t in subscribers && u in subscribers
      requires i < |subscribers[t]| && j < |subscribers[u]| && subscribers[t][i] == subscribers[u][j]
      ensures t == u && i == j
    {
    }

    constructor ()
      ensures Valid() && subscribers == map[] && buffers == map[] && closed == {} && owner == map[]
    {
      subscribers := map[];
      buffers := map[];
      closed := {};
      next := 0;
      owner := map[];
    }

    /** Makes a new, empty, open channel and appends it to the type's list. */
    method Subscribe(t: EventType) returns (h: Handle)
      requires Valid()
      modifies this
      ensures Valid() && h == old(next) && h !in old(buffers)
      ensures subscribers == old(subscribers)[t := old(SubscribersOf(t)) + [h]]
      ensures buffers == old(buffers)[h := []] && closed == old(closed)
      ensures owner == old(owner)[h := (t, |old(SubscribersOf(t))|)]
    {
      h := next;
      var list := SubscribersOf(t);
      SubscribeConsistent(subscribers, buffers, closed, next, owner, t);
      subscribers, buffers, next, owner := subscribers[t := list + [h]], buffers[h := []], next + 1, owner[h := (t, |list|)];
    }

    /**
     * Offers the event to every subscriber of its type, in list order, never
     * to a closed channel; a full channel misses it.
     */
    method Publish(e: Event<D>)
      requires Valid()
      modifies this
      ensures Valid() && Delivered(this, [e])
    {
      var subs := SubscribersOf(e.kind);
      ListOfKind(subscribers, buffers, closed, next, owner, e.kind);
      assert forall h :: h in subs ==> h !in closed;
      var bufs := OfferEach(buffers, subs, e);
      forall h | h in buffers && h in owner
        ensures bufs[h] == OfferAll(buffers[h], OfKind([e], owner[h].0))
      {
        OfferOne(buffers[h], e, owner[h].0);
      }
      PublishConsistent(subscribers, buffers, bufs, closed, next, owner, e);
      buffers := bufs;
    }

    /**
     * Closes the channel and takes it off the type's list; a channel not on
     * that list is left alone. A channel is never closed twice.
     */
    method Unsubscribe(t: EventType, h: Handle)
      requires Valid()
      modifies this
      ensures Valid() && buffers == old(buffers) && next == old(next)
      ensures var k := IndexOf(old(SubscribersOf(t)), h);
        if k < 0 then subscribers == old(subscribers) && closed == old(closed) && owner == old(owner)
        else && h !in old(closed) && closed == old(closed) + {h}
             && subscribers == old(subscribers)[t := RemoveAt(old(subscribers[t]), k)]
             && owner == Shifted(old(owner), h, t, k)
    {
      if t in subscribers {
        var subs := subscribers[t];
        var i := 0;
        while i < |subs|
          invariant 0 <= i <= |subs|
          invariant h !in subs[..i]
        {
          if subs[i] == h {
            Unlist(t, i);
            return;
          }
          i := i + 1;
        }
      }
    }

    /** The found branch of `Unsubscribe`: closes the channel at position `i` of the type's list and splices it out. */
    method Unlist(t: EventType, i: nat)
      requires Valid() && t in subscribers && i < |subscribers[t]|
      modifies this
      ensures Valid() && buffers == old(buffers) && next == old(next)
      ensures var h := old(subscribers[t][i]);
        && h !in old(closed) && closed == old(closed) + {h}
        && subscribers == old(subscribers)[t := RemoveAt(old(subscribers[t]), i)]
        && owner == Shifted(old(owner), h, t, i)
    {
      var h := subscribers[t][i];
      ghost var subs0, closed0, owner0 := subscribers, closed, owner;
      subscribers, closed, owner := subscribers[t := RemoveAt(subscribers[t], i)], closed + {h}, Shifted(owner, h, t, i);
      UnsubscribeConsistent(subs0, buffers, closed0, next, owner0, t, i);
    }
  }

  /** The bus after publishing `es`: subscriptions unchanged, buffers as `DeliveredTo` says. */
  twostate predicate Delivered<D>(bus: EventBus<D>, new es: seq<Event<D>>)
    reads bus
  {
    && bus.subscribers == old(bus.subscribers) && bus.owner == old(bus.owner)
    && bus.closed == old(bus.closed) && bus.next == old(bus.next)
    && DeliveredTo(old(bus.buffers), bus.buffers, bus.owner, es)
  }
}
