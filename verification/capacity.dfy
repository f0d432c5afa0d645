/** The capacity map of one evaluation: other computers with idle executors,
    each with the number of idle executors it still offers. It is a working
    copy that queue items are tentatively assigned to, one executor each.
    The source keeps it in a hash map whose iteration order is unspecified;
    here it is a sequence, and every property below holds for every
    sequence, hence for every iteration order. */
module Capacity {
  import opened Cluster

  datatype Slot = Slot(comp: Computer, count: int)

  /** The provider's node is present and accepts the item. */
  predicate Takes(e: Slot, item: Item, canTake: CanTake)
  {
    NodeTakes(e.comp.node, item, canTake)
  }

  predicate AllPositive(slots: seq<Slot>)
  {
    forall i | 0 <= i < |slots| :: slots[i].count > 0
  }

  /** Idle executors offered in all. */
  function Total(slots: seq<Slot>): int
  {
    if |slots| == 0 then 0 else slots[0].count + Total(slots[1..])
  }

  predicate CanAbsorb(slots: seq<Slot>, item: Item, canTake: CanTake)
  {
    exists i | 0 <= i < |slots| :: Takes(slots[i], item, canTake)
  }

  /** A provider that does not take the item does not change whether the
      rest of the map can absorb it. */
  lemma CanAbsorbPastNonTaker(slots: seq<Slot>, item: Item, canTake: CanTake)
    requires |slots| > 0 && !Takes(slots[0], item, canTake)
    ensures CanAbsorb(slots, item, canTake) <==> CanAbsorb(slots[1..], item, canTake)
  {
    if CanAbsorb(slots, item, canTake) {
      var i :| 0 <= i < |slots| && Takes(slots[i], item, canTake);
      assert slots[1..][i - 1] == slots[i];
    }
    if CanAbsorb(slots[1..], item, canTake) {
      var i :| 0 <= i < |slots[1..]| && Takes(slots[1..][i], item, canTake);
      assert slots[i + 1] == slots[1..][i];
    }
  }

  /** The provider the scan reaches first among those that take the item. */
  function FirstTaker(slots: seq<Slot>, item: Item, canTake: CanTake): (k: nat)
    requires CanAbsorb(slots, item, canTake)
    ensures k < |slots| && Takes(slots[k], item, canTake)
    ensures forall j | 0 <= j < k :: !Takes(slots[j], item, canTake)
  {
    if Takes(slots[0], item, canTake) then 0
    else
      CanAbsorbPastNonTaker(slots, item, canTake);
      1 + FirstTaker(slots[1..], item, canTake)
  }

  /** Assign the item to one executor of the first provider that takes it;
      with no taker the map is unchanged. */
  function Absorb(slots: seq<Slot>, item: Item, canTake: CanTake): (r: seq<Slot>)
    ensures !CanAbsorb(slots, item, canTake) ==> r == slots
    ensures CanAbsorb(slots, item, canTake) ==> |r| <= |slots|
  {
    if |slots| == 0 then slots
    else if Takes(slots[0], item, canTake) then
      if slots[0].count > 1 then [slots[0].(count := slots[0].count - 1)] + slots[1..]
      else slots[1..]
    else
      CanAbsorbPastNonTaker(slots, item, canTake);
      [slots[0]] + Absorb(slots[1..], item, canTake)
  }

  /** Absorbing an item that the first taker can spare an executor for
      lowers that taker's count by one and leaves every other entry, and
      the order of entries, as it was. */
  lemma {:induction false} AbsorbDecrementsFirstTaker(slots: seq<Slot>, item: Item, canTake: CanTake)
    requires CanAbsorb(slots, item, canTake)
    requires slots[FirstTaker(slots, item, canTake)].count > 1
    ensures var k := FirstTaker(slots, item, canTake);
      Absorb(slots, item, canTake) == slots[k := slots[k].(count := slots[k].count - 1)]
  {
    if !Takes(slots[0], item, canTake) {
      CanAbsorbPastNonTaker(slots, item, canTake);
      var k' := FirstTaker(slots[1..], item, canTake);
      assert FirstTaker(slots, item, canTake) == k' + 1;
      AbsorbDecrementsFirstTaker(slots[1..], item, canTake);
      var e := slots[k' + 1].(count := slots[k' + 1].count - 1);
      assert Absorb(slots, item, canTake) == [slots[0]] + slots[1..][k' := e];
      assert [slots[0]] + slots[1..][k' := e] == slots[k' + 1 := e];
    }
  }

  /** Absorbing an item whose first taker has a single idle executor
      removes that entry and keeps every other entry in order. */
  lemma {:induction false} AbsorbRemovesFirstTaker(slots: seq<Slot>, item: Item, canTake: CanTake)
    requires CanAbsorb(slots, item, canTake)
    requires slots[FirstTaker(slots, item, canTake)].count <= 1
    ensures var k := FirstTaker(slots, item, canTake);
      Absorb(slots, item, canTake) == slots[..k] + slots[k + 1..]
  {
    if !Takes(slots[0], item, canTake) {
      CanAbsorbPastNonTaker(slots, item, canTake);
      var k' := FirstTaker(slots[1..], item, canTake);
      assert FirstTaker(slots, item, canTake) == k' + 1;
      AbsorbRemovesFirstTaker(slots[1..], item, canTake);
      assert Absorb(slots, item, canTake) == [slots[0]] + (slots[1..][..k'] + slots[1..][k' + 1..]);
      assert [slots[0]] + (slots[1..][..k'] + slots[1..][k' + 1..]) == slots[..k' + 1] + slots[k' + 2..];
    }
  }

  /** Absorbing an item uses up exactly one idle executor when some provider
      takes it and none otherwise, and leaves every count positive. */
  lemma {:induction false} AbsorbUsesOneExecutor(slots: seq<Slot>, item: Item, canTake: CanTake)
    requires AllPositive(slots)
    ensures AllPositive(Absorb(slots, item, canTake))
    ensures Total(Absorb(slots, item, canTake)) == Total(slots) - (if CanAbsorb(slots, item, canTake) then 1 else 0)
  {
    if |slots| == 0 {
    } else if Takes(slots[0], item, canTake) {
      assert CanAbsorb(slots, item, canTake);
      if slots[0].count > 1 {
        var r := [slots[0].(count := slots[0].count - 1)] + slots[1..];
        assert r[1..] == slots[1..];
      }
    } else {
      var rest := Absorb(slots[1..], item, canTake);
      AbsorbUsesOneExecutor(slots[1..], item, canTake);
      assert ([slots[0]] + rest)[1..] == rest;
      CanAbsorbPastNonTaker(slots, item, canTake);
    }
  }
}
