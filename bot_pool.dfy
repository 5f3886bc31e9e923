/**
 * The bot registry (internal/bot/pool.go): a slice of bots that is appended
 * to, spliced, counted and visited under one lock.
 */
module BotPool {
  import opened Wrappers
  import opened BotModel
  import opened Seqs

  /** The bots not marked Offline. */
  ghost function ActiveIn(bs: seq<Bot>): (n: nat)
    reads bs
    ensures n <= |bs|
  {
    if bs == [] then 0
    else ActiveIn(bs[..|bs| - 1]) + (if bs[|bs| - 1].Status != Offline then 1 else 0)
  }

  /** Counting active bots splits over concatenation. */
  lemma {:induction false} ActiveInAppend(xs: seq<Bot>, ys: seq<Bot>)
    ensures ActiveIn(xs + ys) == ActiveIn(xs) + ActiveIn(ys)
    decreases |ys|
  {
    if ys == [] {
      assert xs + ys == xs;
    } else {
      assert (xs + ys)[..|xs + ys| - 1] == xs + ys[..|ys| - 1];
      ActiveInAppend(xs, ys[..|ys| - 1]);
    }
  }

  /** With no bot Offline, every bot is active. */
  lemma {:induction false} ActiveWhenNoneOffline(bs: seq<Bot>)
    requires forall b :: b in bs ==> b.Status != Offline
    ensures ActiveIn(bs) == |bs|
    decreases |bs|
  {
    if bs != [] {
      ActiveWhenNoneOffline(bs[..|bs| - 1]);
    }
  }

  /** Whether a bot passes a `ForEach` status filter; `None` is the empty filter. */
  predicate Matches(b: Bot, filter: Option<BotStatus>)
    reads b
  {
    filter.None? || b.Status == filter.value
  }

  /** The bots a `ForEach` visits, in slice order. */
  ghost function Visited(bs: seq<Bot>, filter: Option<BotStatus>): seq<Bot>
    reads bs
  {
    if bs == [] then []
    else Visited(bs[..|bs| - 1], filter) + (if Matches(bs[|bs| - 1], filter) then [bs[|bs| - 1]] else [])
  }

  /** Every matching bot is visited. */
  lemma {:induction false} VisitsEveryMatch(bs: seq<Bot>, filter: Option<BotStatus>, i: nat)
    requires i < |bs| && Matches(bs[i], filter)
    ensures bs[i] in Visited(bs, filter)
    decreases |bs|
  {
    if i < |bs| - 1 {
      VisitsEveryMatch(bs[..|bs| - 1], filter, i);
    }
  }

  /** Only matching bots of the slice are visited. */
  lemma {:induction false} VisitsOnlyMatches(bs: seq<Bot>, filter: Option<BotStatus>)
    ensures forall j :: 0 <= j < |Visited(bs, filter)| ==>
      Visited(bs, filter)[j] in bs && Matches(Visited(bs, filter)[j], filter)
    decreases |bs|
  {
    if bs != [] {
      var init := bs[..|bs| - 1];
      VisitsOnlyMatches(init, filter);
      assert forall b :: b in init ==> b in bs;
    }
  }

  /** The empty filter visits the whole slice in order. */
  lemma {:induction false} VisitAllIsSlice(bs: seq<Bot>)
    ensures Visited(bs, None) == bs
    decreases |bs|
  {
    if bs != [] {
      VisitAllIsSlice(bs[..|bs| - 1]);
      assert bs == bs[..|bs| - 1] + [bs[|bs| - 1]];
    }
  }

  /** Taking one bot out lowers the active count by one exactly when that bot was active. */
  lemma {:induction false} ActiveAfterRemoval(bs: seq<Bot>, k: nat)
    requires k < |bs|
    ensures ActiveIn(bs) == ActiveIn(RemoveAt(bs, k)) + (if bs[k].Status != Offline then 1 else 0)
  {
    var before, after := bs[..k], bs[k + 1..];
    assert bs == before + [bs[k]] + after;
    assert RemoveAt(bs, k) == before + after;
    ActiveInAppend(before + [bs[k]], after);
    ActiveInAppend(before, [bs[k]]);
    ActiveInAppend(before, after);
    assert [bs[k]][..0] == [];
  }

  /** Index of the first bot with the given ID, or -1. */
  function FirstWithID(bs: seq<Bot>, id: string): (k: int)
    ensures -1 <= k < |bs|
    ensures k == -1 <==> forall i :: 0 <= i < |bs| ==> bs[i].ID != id
    ensures k >= 0 ==> bs[k].ID == id && forall i :: 0 <= i < k ==> bs[i].ID != id
  {
    if bs == [] then -1
    else if bs[0].ID == id then 0
    else
      var r := FirstWithID(bs[1..], id);
      if r == -1 then -1 else r + 1
  }

  /**
   * The index `RemoveBot(id)` takes out: none for an empty pool, the last bot
   * for the empty ID, otherwise the first bot with that ID (none if absent).
   */
  function TargetIndex(bs: seq<Bot>, id: string): (k: int)
    ensures -1 <= k < |bs|
    ensures |bs| == 0 ==> k == -1
    ensures |bs| > 0 && id == "" ==> k == |bs| - 1
    ensures id != "" ==> k == FirstWithID(bs, id)
  {
    if |bs| == 0 then -1 else if id == "" then |bs| - 1 else FirstWithID(bs, id)
  }

  class Pool {
    var bots: seq<Bot>

    /** Every bot sits in the slice once (each `AddBot` allocates a new one). */
    ghost predicate Valid()
      reads this
    {
      Distinct(bots)
    }

    /** No bot in the slice is Offline: every one counts as active. */
    ghost predicate NoneOffline()
      reads this, bots
    {
      ActiveIn(bots) == |bots|
    }

    constructor ()
      ensures Valid() && bots == []
    {
      bots := [];
    }

    /** Appends a new Idle bot of the given tier; `newID` stands for the random ID generator's output. */
    method AddBot(botType: BotType, newID: string) returns (b: Bot)
      requires Valid()
      modifies this
      ensures Valid() && fresh(b)
      ensures b.ID == newID && b.Type == botType && b.Status == Idle && b.CurrentOrderID == None
      ensures bots == old(bots) + [b]
      ensures ActiveIn(bots) == old(ActiveIn(bots)) + 1
      ensures old(NoneOffline()) ==> NoneOffline()
    {
      b := new Bot(newID, botType);
      bots := bots + [b];
      ActiveInAppend(old(bots), [b]);
      assert [b][..0] == [];
    }

    /** The bot `RemoveBot(id)` would take out, as a set of at most one. */
    ghost function Target(id: string): set<Bot>
      reads this
    {
      var k := TargetIndex(bots, id);
      if k < 0 then {} else {bots[k]}
    }

    /**
     * Removes the bot chosen by `TargetIndex`, keeps the others in order and
     * marks the removed one Offline; returns null and changes nothing when
     * there is none. No other bot is written.
     */
    method RemoveBot(id: string) returns (r: Bot?)
      requires Valid()
      modifies this, Target(id)
      ensures Valid()
      ensures TargetIndex(old(bots), id) < 0 ==> r == null && bots == old(bots)
      ensures TargetIndex(old(bots), id) >= 0 ==>
        && r == old(bots)[TargetIndex(old(bots), id)]
        && bots == RemoveAt(old(bots), TargetIndex(old(bots), id))
        && r.Status == Offline
      ensures r != null ==> r.CurrentOrderID == old(r.CurrentOrderID)
      ensures r != null ==> ActiveIn(bots) == old(ActiveIn(bots)) - (if old(r.Status) != Offline then 1 else 0)
    {
      var k := FindTarget(id);
      if k < 0 {
        return null;
      }
      r := TakeOut(k);
    }

    /** The splice and status write of `RemoveBot`, once the index is known. */
    method TakeOut(k: nat) returns (r: Bot)
      requires Valid() && k < |bots|
      modifies this, bots[k]
      ensures Valid() && r == old(bots[k]) && r.Status == Offline
      ensures r.CurrentOrderID == old(r.CurrentOrderID)
      ensures bots == RemoveAt(old(bots), k)
      ensures ActiveIn(bots) == old(ActiveIn(bots)) - (if old(r.Status) != Offline then 1 else 0)
    {
      r := bots[k];
      ActiveAfterRemoval(bots, k);
      RemoveAtDistinct(bots, k);
      bots := RemoveAt(bots, k);
      r.Status := Offline;
    }

    /** The search step of `RemoveBot`: the index it takes out, or -1. */
    method FindTarget(id: string) returns (k: int)
      ensures k == TargetIndex(bots, id)
    {
      if |bots| == 0 {
        return -1;
      }
      if id == "" {
        return |bots| - 1;
      }
      k := 0;
      while k < |bots|
        invariant 0 <= k <= |bots|
        invariant forall j :: 0 <= j < k ==> bots[j].ID != id
      {
        if bots[k].ID == id {
          return;
        }
        k := k + 1;
      }
      k := -1;
    }

    /** The number of bots in the slice not marked Offline. */
    method GetActiveBotsCount() returns (n: nat)
      ensures n == ActiveIn(bots) && n <= |bots|
    {
      n := 0;
      var i := 0;
      while i < |bots|
        invariant 0 <= i <= |bots|
        invariant n == ActiveIn(bots[..i])
      {
        assert bots[..i + 1][..i] == bots[..i];
        if bots[i].Status != Offline {
          n := n + 1;
        }
        i := i + 1;
      }
      assert bots[..|bots|] == bots;
    }

    /**
     * The visit sequence of `ForEach`: the bots passing the filter, in slice
     * order; the visitor itself stands outside the model.
     */
    method ForEach(filter: Option<BotStatus>) returns (visited: seq<Bot>)
      ensures visited == Visited(bots, filter)
    {
      visited := [];
      var i := 0;
      while i < |bots|
        invariant 0 <= i <= |bots|
        invariant visited == Visited(bots[..i], filter)
      {
        assert bots[..i + 1][..i] == bots[..i];
        if filter.None? || bots[i].Status == filter.value {
          visited := visited + [bots[i]];
        }
        i := i + 1;
      }
      assert bots[..|bots|] == bots;
    }
  }

  /** When every bot counts as active, each one is not Offline. */
  lemma {:induction false} FullCountAllActive(bs: seq<Bot>, k: nat)
    requires ActiveIn(bs) == |bs| && k < |bs|
    ensures bs[k].Status != Offline
    decreases |bs|
  {
    if k < |bs| - 1 {
      FullCountAllActive(bs[..|bs| - 1], k);
    }
  }

  /** One registry call: an addition, or a removal by ID (the empty ID takes the last bot). */
  datatype PoolCall = AddCall(botType: BotType, newID: string) | RemoveCall(id: string)

  /** The number of additions in a run of calls. */
  function Additions(calls: seq<PoolCall>): (n: nat)
    ensures n <= |calls|
  {
    if calls == [] then 0
    else (if calls[0].AddCall? then 1 else 0) + Additions(calls[1..])
  }

  /** The IDs of a slice of bots, in slice order (a bot's ID never changes). */
  function IDs(bs: seq<Bot>): seq<string> {
    seq(|bs|, k requires 0 <= k < |bs| => bs[k].ID)
  }

  /** `TargetIndex` read on the IDs alone. */
  function TargetOfIDs(ids: seq<string>, id: string): (k: int)
    ensures -1 <= k < |ids|
  {
    if |ids| == 0 then -1 else if id == "" then |ids| - 1 else IndexOf(ids, id)
  }

  /** Which bot `RemoveBot` picks depends on the IDs alone. */
  lemma TargetOfIDsAgrees(bs: seq<Bot>, id: string)
    ensures TargetIndex(bs, id) == TargetOfIDs(IDs(bs), id)
  {
    if |bs| > 0 && id != "" {
      var ids := IDs(bs);
      var m := IndexOf(ids, id);
      assert forall i :: 0 <= i < |bs| ==> ids[i] == bs[i].ID;
      if m >= 0 {
        assert forall i :: 0 <= i < m ==> ids[i] != id by {
          assert id !in ids[..m];
        }
        assert bs[m].ID == id;
      } else {
        assert forall i :: 0 <= i < |bs| ==> ids[i] != id;
      }
    }
  }

  /** Splicing a bot out splices its ID out of the IDs. */
  lemma IDsRemoveAt(bs: seq<Bot>, k: nat)
    requires k < |bs|
    ensures IDs(RemoveAt(bs, k)) == RemoveAt(IDs(bs), k)
  {
    var l, r := IDs(RemoveAt(bs, k)), RemoveAt(IDs(bs), k);
    assert |l| == |r|;
    forall i | 0 <= i < |l|
      ensures l[i] == r[i]
    {
      if i < k {
        assert l[i] == bs[i].ID;
      } else {
        assert l[i] == bs[i + 1].ID;
      }
    }
  }

  /** One call on the pool's IDs: the IDs after it, and whether it was a removal that found a bot. */
  function StepIDs(ids: seq<string>, c: PoolCall): (seq<string>, bool) {
    match c
    case AddCall(_, newID) => (ids + [newID], false)
    case RemoveCall(id) =>
      var k := TargetOfIDs(ids, id);
      if k < 0 then (ids, false) else (RemoveAt(ids, k), true)
  }

  /** A run of calls on the pool's IDs: the IDs after it, and how many removals found a bot. */
  function RunIDs(ids: seq<string>, calls: seq<PoolCall>): (seq<string>, nat)
    decreases |calls|
  {
    if calls == [] then (ids, 0)
    else
      var s := StepIDs(ids, calls[0]);
      var r := RunIDs(s.0, calls[1..]);
      (r.0, r.1 + if s.1 then 1 else 0)
  }

  /**
   * A run adds one ID per addition and drops one per removal that found a
   * bot; those removals are at most the removal calls.
   */
  lemma {:induction false} RunIDsSize(ids: seq<string>, calls: seq<PoolCall>)
    ensures RunIDs(ids, calls).1 <= |calls| - Additions(calls)
    ensures |RunIDs(ids, calls).0| == |ids| + Additions(calls) - RunIDs(ids, calls).1
    decreases |calls|
  {
    if calls != [] {
      RunIDsSize(StepIDs(ids, calls[0]).0, calls[1..]);
    }
  }

  /**
   * The pool test's removals, after its two additions: one by the first
   * bot's ID, then one of the last bot; both find a bot and the pool ends
   * empty.
   */
  lemma PoolTestRemovals(id1: string, id2: string)
    requires id1 != ""
    ensures RunIDs([id1, id2], [RemoveCall(id1), RemoveCall("")]) == ([], 2)
  {
    var c2 := [RemoveCall(id1), RemoveCall("")];
    assert c2[1..] == [RemoveCall("")] && c2[1..][1..] == [];
    assert StepIDs([id2], RemoveCall("")) == ([], true) by {
      assert RemoveAt([id2], 0) == [];
    }
    assert RunIDs([id2], c2[1..]) == ([], 1);
    assert StepIDs([id1, id2], RemoveCall(id1)) == ([id2], true) by {
      assert IndexOf([id1, id2], id1) == 0;
      assert RemoveAt([id1, id2], 0) == [id2];
    }
  }

  /**
   * A removal on a pool with no bot Offline: it takes out the bot
   * `TargetIndex` picks when there is one, and leaves no bot Offline in the
   * slice.
   */
  method RemoveActive(p: Pool, id: string) returns (removed: bool)
    requires p.Valid() && p.NoneOffline()
    modifies p, p.bots
    ensures p.Valid() && p.NoneOffline()
    ensures removed <==> TargetIndex(old(p.bots), id) >= 0
    ensures removed ==> p.bots == RemoveAt(old(p.bots), TargetIndex(old(p.bots), id))
    ensures !removed ==> p.bots == old(p.bots)
  {
    var k := TargetIndex(p.bots, id);
    if k < 0 {
      var r := p.RemoveBot(id);
      removed := false;
    } else {
      FullCountAllActive(p.bots, k);
      var r := p.RemoveBot(id);
      removed := true;
    }
  }

  /**
   * One call on a pool with no bot Offline: an addition appends a new bot, a
   * removal takes out the bot `TargetIndex` picks when there is one, and no
   * bot in the slice is Offline afterwards.
   */
  method Apply(p: Pool, c: PoolCall) returns (removed: bool, added: Bot?)
    requires p.Valid() && p.NoneOffline()
    modifies p, p.bots
    ensures p.Valid() && p.NoneOffline()
    ensures c.AddCall? ==> !removed && added != null && fresh(added) && added.ID == c.newID && p.bots == old(p.bots) + [added]
    ensures c.RemoveCall? ==> added == null && (removed <==> TargetIndex(old(p.bots), c.id) >= 0)
    ensures c.RemoveCall? && removed ==> p.bots == RemoveAt(old(p.bots), TargetIndex(old(p.bots), c.id))
    ensures c.RemoveCall? && !removed ==> p.bots == old(p.bots)
    ensures forall b :: b in p.bots ==> b in old(p.bots) || b == added
  {
    match c
    case AddCall(botType, newID) =>
      added := p.AddBot(botType, newID);
      removed := false;
    case RemoveCall(id) =>
      removed := RemoveActive(p, id);
      added := null;
  }

  /** What `Apply` does to the slice, read on the IDs: the step `StepIDs` describes. */
  lemma ApplyOnIDs(before: seq<Bot>, after: seq<Bot>, c: PoolCall, removed: bool, added: Bot?)
    requires c.AddCall? ==> !removed && added != null && added.ID == c.newID && after == before + [added]
    requires c.RemoveCall? ==> (removed <==> TargetIndex(before, c.id) >= 0)
    requires c.RemoveCall? && removed ==> after == RemoveAt(before, TargetIndex(before, c.id))
    requires c.RemoveCall? && !removed ==> after == before
    ensures (IDs(after), removed) == StepIDs(IDs(before), c)
  {
    match c
    case AddCall(_, _) =>
      assert IDs(after) == IDs(before) + [added.ID];
    case RemoveCall(id) =>
      TargetOfIDsAgrees(before, id);
      if removed {
        IDsRemoveAt(before, TargetIndex(before, id));
      }
  }

  /** `Apply` seen through the IDs: the step `StepIDs` describes. */
  method Step(p: Pool, c: PoolCall) returns (removed: bool)
    requires p.Valid() && p.NoneOffline()
    modifies p, p.bots
    ensures p.Valid() && p.NoneOffline()
    ensures (IDs(p.bots), removed) == StepIDs(IDs(old(p.bots)), c)
    ensures forall j :: 0 <= j < |p.bots| ==> p.bots[j] in old(p.bots) || fresh(p.bots[j])
  {
    ghost var before := p.bots;
    var added;
    removed, added := Apply(p, c);
    ApplyOnIDs(before, p.bots, c, removed, added);
  }

  /**
   * A run of calls on a pool with no bot Offline: the IDs and the removals
   * that found a bot are those of `RunIDs`, and still no bot is Offline.
   */
  method ApplyAll(p: Pool, calls: seq<PoolCall>) returns (removed: nat)
    requires p.Valid() && p.NoneOffline()
    modifies p, p.bots
    ensures p.Valid() && p.NoneOffline()
    ensures (IDs(p.bots), removed) == RunIDs(IDs(old(p.bots)), calls)
    decreases |calls|
  {
    if calls == [] {
      return 0;
    }
    var gone := Step(p, calls[0]);
    var rest := ApplyAll(p, calls[1..]);
    removed := rest + if gone then 1 else 0;
  }

  /**
   * Any run of additions and removals on a new pool, interleaved in any
   * order and removing by ID or by the empty ID, with no other status
   * change: the active count is the number of additions less the number of
   * removals that found a bot, as `RunIDs` counts them.
   */
  method ActiveAfterCalls(calls: seq<PoolCall>) returns (active: nat, removed: nat)
    ensures removed == RunIDs([], calls).1 && removed <= |calls| - Additions(calls)
    ensures active == Additions(calls) - removed
  {
    var p := new Pool();
    assert IDs(p.bots) == [];
    removed := ApplyAll(p, calls);
    RunIDsSize([], calls);
    active := p.GetActiveBotsCount();
  }
}
