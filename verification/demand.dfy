/** The queue scan of the launch branch. Buildable items are visited in
    queue order; each is first offered to the capacity map, and the first
    item that no other computer can absorb but the evaluated computer's node
    can take decides whether the evaluated computer is in demand. */
module Demand {
  import opened Cluster
  import opened Capacity

  /** The capacity map after the first `k` items have been offered to it. */
  function Pool(items: seq<Item>, slots: seq<Slot>, k: nat, canTake: CanTake): seq<Slot>
    requires k <= |items|
  {
    if k == 0 then slots else Absorb(Pool(items, slots, k - 1, canTake), items[k - 1], canTake)
  }

  /** Item `k` finds no other taker once the earlier items have been
      absorbed, and the evaluated computer's node takes it. */
  predicate Unmet(items: seq<Item>, slots: seq<Slot>, k: nat, cNode: Option<Node>, canTake: CanTake)
    requires k < |items|
  {
    !CanAbsorb(Pool(items, slots, k, canTake), items[k], canTake) && NodeTakes(cNode, items[k], canTake)
  }

  /** Item `k` is the first unmet item of the queue. */
  predicate FirstUnmetAt(items: seq<Item>, slots: seq<Slot>, k: nat, cNode: Option<Node>, canTake: CanTake)
  {
    && k < |items|
    && Unmet(items, slots, k, cNode, canTake)
    && forall j | 0 <= j < k :: !Unmet(items, slots, j, cNode, canTake)
  }

  /** Where the scan stopped: at the index of the deciding item, or at the
      end of the queue with nothing decided. */
  datatype Scan = NoDemand | Demand(index: nat)

  /** The scan loop from item `k` on, with `pool` the capacity map left by
      the items before `k`. */
  function ScanFrom(items: seq<Item>, k: nat, pool: seq<Slot>, cNode: Option<Node>, canTake: CanTake): Scan
    requires k <= |items|
    decreases |items| - k
  {
    if k == |items| then NoDemand
    else
      var needExecutor := !CanAbsorb(pool, items[k], canTake);
      if needExecutor && NodeTakes(cNode, items[k], canTake) then Demand(k)
      else ScanFrom(items, k + 1, Absorb(pool, items[k], canTake), cNode, canTake)
  }

  /** One step of the scan loop, stated against the reference pool. */
  lemma ScanStep(items: seq<Item>, slots: seq<Slot>, k: nat, cNode: Option<Node>, canTake: CanTake)
    requires k < |items|
    ensures ScanFrom(items, k, Pool(items, slots, k, canTake), cNode, canTake)
         == if Unmet(items, slots, k, cNode, canTake) then Demand(k)
            else ScanFrom(items, k + 1, Pool(items, slots, k + 1, canTake), cNode, canTake)
  {
  }

  lemma {:induction false} ScanFromFindsFirstUnmet(items: seq<Item>, slots: seq<Slot>, k: nat, cNode: Option<Node>, canTake: CanTake)
    requires k <= |items|
    requires forall j | 0 <= j < k :: !Unmet(items, slots, j, cNode, canTake)
    ensures ScanFrom(items, k, Pool(items, slots, k, canTake), cNode, canTake).Demand? ==>
      FirstUnmetAt(items, slots, ScanFrom(items, k, Pool(items, slots, k, canTake), cNode, canTake).index, cNode, canTake)
    ensures ScanFrom(items, k, Pool(items, slots, k, canTake), cNode, canTake).NoDemand? ==>
      forall j | 0 <= j < |items| :: !Unmet(items, slots, j, cNode, canTake)
    decreases |items| - k
  {
    if k < |items| {
      var s := ScanFrom(items, k, Pool(items, slots, k, canTake), cNode, canTake);
      ScanStep(items, slots, k, cNode, canTake);
      if Unmet(items, slots, k, cNode, canTake) {
        assert s == Demand(k);
        assert FirstUnmetAt(items, slots, k, cNode, canTake);
      } else {
        assert s == ScanFrom(items, k + 1, Pool(items, slots, k + 1, canTake), cNode, canTake);
        ScanFromFindsFirstUnmet(items, slots, k + 1, cNode, canTake);
      }
    } else {
      assert ScanFrom(items, k, Pool(items, slots, k, canTake), cNode, canTake) == NoDemand;
    }
  }

  /** The whole scan: it stops at the first unmet item, and finds nothing
      exactly when no item is unmet. */
  function FirstUnmet(items: seq<Item>, slots: seq<Slot>, cNode: Option<Node>, canTake: CanTake): (s: Scan)
    ensures s.Demand? ==> FirstUnmetAt(items, slots, s.index, cNode, canTake)
    ensures s.NoDemand? ==> forall j | 0 <= j < |items| :: !Unmet(items, slots, j, cNode, canTake)
  {
    ScanFromFindsFirstUnmet(items, slots, 0, cNode, canTake);
    ScanFrom(items, 0, slots, cNode, canTake)
  }

  /** There is at most one first unmet item. */
  lemma FirstUnmetUnique(items: seq<Item>, slots: seq<Slot>, k: nat, k': nat, cNode: Option<Node>, canTake: CanTake)
    requires FirstUnmetAt(items, slots, k, cNode, canTake)
    requires FirstUnmetAt(items, slots, k', cNode, canTake)
    ensures k == k'
  {
  }

  /** The scan decides on item `k` exactly when `k` is the first unmet item. */
  lemma FirstUnmetIff(items: seq<Item>, slots: seq<Slot>, k: nat, cNode: Option<Node>, canTake: CanTake)
    ensures FirstUnmet(items, slots, cNode, canTake) == Demand(k) <==> FirstUnmetAt(items, slots, k, cNode, canTake)
  {
    var s := FirstUnmet(items, slots, cNode, canTake);
    if FirstUnmetAt(items, slots, k, cNode, canTake) {
      if s.Demand? {
        FirstUnmetUnique(items, slots, k, s.index, cNode, canTake);
      }
    }
  }

  /** A single item that the map cannot absorb but the computer can take is
      the first unmet one. */
  lemma SoleItemIsFirstUnmet(items: seq<Item>, slots: seq<Slot>, cNode: Option<Node>, canTake: CanTake)
    requires |items| == 1
    requires !CanAbsorb(slots, items[0], canTake)
    requires NodeTakes(cNode, items[0], canTake)
    ensures FirstUnmetAt(items, slots, 0, cNode, canTake)
    ensures FirstUnmet(items, slots, cNode, canTake) == Demand(0)
  {
    assert Pool(items, slots, 0, canTake) == slots;
    FirstUnmetIff(items, slots, 0, cNode, canTake);
  }

  /** Offering the same first items leaves the same capacity map, whatever
      follows them in the queue. */
  lemma {:induction false} PoolIgnoresLaterItems(items: seq<Item>, more: seq<Item>, slots: seq<Slot>, k: nat, canTake: CanTake)
    requires k <= |items|
    ensures Pool(items + more, slots, k, canTake) == Pool(items, slots, k, canTake)
  {
    if k > 0 {
      PoolIgnoresLaterItems(items, more, slots, k - 1, canTake);
      assert (items + more)[k - 1] == items[k - 1];
    }
  }

  /** Items queued after the deciding item never change the outcome. */
  lemma LaterItemsIrrelevant(items: seq<Item>, more: seq<Item>, slots: seq<Slot>, cNode: Option<Node>, canTake: CanTake)
    requires FirstUnmet(items, slots, cNode, canTake).Demand?
    ensures FirstUnmet(items + more, slots, cNode, canTake) == FirstUnmet(items, slots, cNode, canTake)
  {
    var k := FirstUnmet(items, slots, cNode, canTake).index;
    forall j | 0 <= j <= k
      ensures Unmet(items + more, slots, j, cNode, canTake) == Unmet(items, slots, j, cNode, canTake)
    {
      PoolIgnoresLaterItems(items, more, slots, j, canTake);
      assert (items + more)[j] == items[j];
    }
    assert FirstUnmetAt(items + more, slots, k, cNode, canTake);
    FirstUnmetIff(items + more, slots, k, cNode, canTake);
  }

  /** One idle executor that could take both of two items is spent on the
      first; the second is then judged against the evaluated computer. */
  lemma OneExecutorServesOnlyFirstItem(o: Computer, first: Item, second: Item, cNode: Option<Node>, canTake: CanTake)
    requires NodeTakes(o.node, first, canTake) && NodeTakes(o.node, second, canTake)
    ensures !Unmet([first, second], [Slot(o, 1)], 0, cNode, canTake)
    ensures Unmet([first, second], [Slot(o, 1)], 1, cNode, canTake) <==> NodeTakes(cNode, second, canTake)
  {
    var items := [first, second];
    var slots := [Slot(o, 1)];
    assert Takes(slots[0], first, canTake);
    assert FirstTaker(slots, first, canTake) == 0;
    assert Pool(items, slots, 1, canTake) == [];
  }

  /** The order in which the capacity map is iterated can decide the scan.
      Computer `a` can take both items, `b` only the first, each with one
      idle executor: iterating `a` first spends its executor on the first
      item and leaves the second to the evaluated computer; iterating `b`
      first leaves `a` free for the second. */
  lemma MapOrderMatters(a: Computer, b: Computer, first: Item, second: Item, cNode: Option<Node>, canTake: CanTake)
    requires NodeTakes(a.node, first, canTake) && NodeTakes(a.node, second, canTake)
    requires NodeTakes(b.node, first, canTake) && !NodeTakes(b.node, second, canTake)
    requires NodeTakes(cNode, second, canTake)
    ensures FirstUnmet([first, second], [Slot(a, 1), Slot(b, 1)], cNode, canTake) == Demand(1)
    ensures FirstUnmet([first, second], [Slot(b, 1), Slot(a, 1)], cNode, canTake) == NoDemand
  {
    var items := [first, second];
    var ab := [Slot(a, 1), Slot(b, 1)];
    var ba := [Slot(b, 1), Slot(a, 1)];
    assert Takes(ab[0], first, canTake);
    assert FirstTaker(ab, first, canTake) == 0;
    assert Pool(items, ab, 1, canTake) == [Slot(b, 1)];
    assert FirstUnmetAt(items, ab, 1, cNode, canTake);
    FirstUnmetIff(items, ab, 1, cNode, canTake);
    assert Takes(ba[0], first, canTake);
    assert FirstTaker(ba, first, canTake) == 0;
    assert Pool(items, ba, 1, canTake) == [Slot(a, 1)];
    assert !Unmet(items, ba, 0, cNode, canTake);
    assert !Unmet(items, ba, 1, cNode, canTake);
    if FirstUnmet(items, ba, cNode, canTake).Demand? {
      FirstUnmetIff(items, ba, FirstUnmet(items, ba, cNode, canTake).index, cNode, canTake);
    }
  }
}
