/** End-to-end situations of the periodic check, stated over the model. */
module Scenarios {
  import opened Cluster
  import opened Time
  import opened Text
  import opened Pattern
  import opened Policy
  import opened Capacity
  import opened Survey
  import opened Demand
  import opened Retention

  /** No active computer other than `x` can take the item, so the capacity
      map built for `x`, in whatever order it is iterated, cannot absorb it. */
  lemma OnlyTargetTakes(p: RetentionPolicy, x: Computer, w: World, re: RegexEngine, canTake: CanTake, item: Item, order: seq<Slot>)
    requires IsMapOrder(order, p, x, w, re)
    requires !x.IsActive()
    requires forall i | 0 <= i < |w.computers| :: w.computers[i] == x || !NodeTakes(w.computers[i].node, item, canTake)
    ensures !CanAbsorb(order, item, canTake)
  {
    var slots := SlotsFor(p, x, w, re);
    forall i | 0 <= i < |order|
      ensures !Takes(order[i], item, canTake)
    {
      assert order[i] in multiset(order);
      assert order[i] in slots;
    }
  }

  /** An offline launchable computer with a five-minute in-demand delay, no
      conflict pattern, and one item only it can take that has waited six
      minutes, is launched. */
  lemma LaunchWhenInDemand(x: Computer, w: World, re: RegexEngine, canTake: CanTake, idleDelay: int, order: seq<Slot>)
    requires IsMapOrder(order, New(5, idleDelay), x, w, re)
    requires LaunchBranch(x) && !x.connecting
    requires |w.buildable| == 1 && AgeMs(w, 0) == 6 * MillisPerMinute
    requires NodeTakes(x.node, w.buildable[0], canTake)
    requires forall i | 0 <= i < |w.computers| :: w.computers[i] == x || !NodeTakes(w.computers[i].node, w.buildable[0], canTake)
    ensures Check(New(5, idleDelay), x, w, re, canTake, order).action == Connect(6 * MillisPerMinute)
  {
    var p := New(5, idleDelay);
    OnlyTargetTakes(p, x, w, re, canTake, w.buildable[0], order);
    LaunchThreshold(p, x, w, re, canTake, order);
  }

  /** The same, but the computer conflicts with "^Y" and "Y1" is online:
      the launch is suppressed and reported with "Y1" among the conflicts. */
  lemma SuppressWhenConflicting(x: Computer, w: World, re: RegexEngine, canTake: CanTake, idleDelay: int, y: nat, order: seq<Slot>)
    requires IsMapOrder(order, SetConflictsWith(New(5, idleDelay), "^Y"), x, w, re)
    requires LaunchBranch(x) && !x.connecting && x.name != "Y1"
    requires |w.buildable| == 1 && AgeMs(w, 0) == 6 * MillisPerMinute
    requires NodeTakes(x.node, w.buildable[0], canTake)
    requires forall i | 0 <= i < |w.computers| :: w.computers[i] == x || !NodeTakes(w.computers[i].node, w.buildable[0], canTake)
    requires y < |w.computers| && w.computers[y].name == "Y1" && w.computers[y].online
    requires re.compiles("^Y") && re.finds("^Y", "Y1")
    ensures var v := Check(SetConflictsWith(New(5, idleDelay), "^Y"), x, w, re, canTake, order);
      v.action.Suppressed? && v.action.demandMs == 6 * MillisPerMinute && "Y1" in v.action.conflicts
  {
    var p := SetConflictsWith(New(5, idleDelay), "^Y");
    YPattern(idleDelay, re);
    YConflicts(p, x, w, re, y);
    OnlyTargetTakes(p, x, w, re, canTake, w.buildable[0], order);
    SuppressThreshold(p, x, w, re, canTake, order);
  }

  /** A policy whose pattern "^Y" is active sees the online computer "Y1"
      as a conflict. */
  lemma YConflicts(p: RetentionPolicy, x: Computer, w: World, re: RegexEngine, y: nat)
    requires Compile(p.conflictsWith, re) == Active("^Y")
    requires x.name != "Y1"
    requires y < |w.computers| && w.computers[y].name == "Y1" && w.computers[y].online
    requires re.finds("^Y", "Y1")
    ensures "Y1" in ConflictsFor(p, x, w, re)
  {
    assert Blocks(w.computers[y], x.name, Compile(p.conflictsWith, re), re);
  }

  /** "^Y" has nothing to trim, so the setter stores it as given and it
      compiles to an active pattern. */
  lemma YPattern(idleDelay: int, re: RegexEngine)
    requires re.compiles("^Y")
    ensures Compile(SetConflictsWith(New(5, idleDelay), "^Y").conflictsWith, re) == Active("^Y")
  {
    assert LeadingCount("^Y") == 0;
    assert TrailingCount("^Y") == 0;
    assert Trim("^Y") == "^Y";
  }

  /** An online computer idle for three minutes under a ten-minute idle
      delay stays connected and asks to be checked again in seven minutes. */
  lemma DeferWhenRecentlyIdle(x: Computer, w: World, re: RegexEngine, canTake: CanTake, inDemandDelay: int, order: seq<Slot>)
    requires IsMapOrder(order, New(inDemandDelay, 10), x, w, re)
    requires x.online && x.idle
    requires IdleMs(x, w) == 3 * MillisPerMinute
    ensures Check(New(inDemandDelay, 10), x, w, re, canTake, order) == Verdict(NoAction, 7)
  {
  }

  /** After eleven idle minutes under a ten-minute idle delay the computer
      is disconnected. */
  lemma DisconnectWhenIdleLong(x: Computer, w: World, re: RegexEngine, canTake: CanTake, inDemandDelay: int, order: seq<Slot>)
    requires IsMapOrder(order, New(inDemandDelay, 10), x, w, re)
    requires x.online && x.idle
    requires IdleMs(x, w) == 11 * MillisPerMinute
    ensures Check(New(inDemandDelay, 10), x, w, re, canTake, order) == Verdict(Disconnect(11 * MillisPerMinute), 1)
  {
  }
}
