/** The retention strategy's periodic check of one computer: launch it when
    it has been in demand long enough and nothing conflicts, report a
    suppressed launch when something does, disconnect it once it has been
    idle long enough, and say how many minutes to wait before the next
    check. */
module Retention {
  import opened Cluster
  import opened Time
  import opened Pattern
  import opened Policy
  import opened Capacity
  import opened Survey
  import opened Demand

  /** What the check does to the computer. A suppressed launch only
      reports; the other two issue a lifecycle request. */
  datatype Action =
    | Connect(demandMs: int)
    | Suppressed(demandMs: int, conflicts: set<string>)
    | Disconnect(idleMs: int)
    | NoAction

  /** The action taken and the minutes until the next check. */
  datatype Verdict = Verdict(action: Action, recheck: int)

  /** The cluster as the check sees it, clock reading included. */
  datatype World = World(computers: seq<Computer>, buildable: seq<Item>, now: int)

  /** The launch branch applies to a computer that is offline and can be
      launched. */
  predicate LaunchBranch(c: Computer)
  {
    c.IsOffline() && c.launchSupported
  }

  /** The capacity map the launch branch builds for `c`. */
  function SlotsFor(p: RetentionPolicy, c: Computer, w: World, re: RegexEngine): seq<Slot>
  {
    Census(w.computers, c.name, Compile(p.conflictsWith, re), re).slots
  }

  /** `order` is the capacity map as its hash map happens to iterate it:
      some arrangement of the surveyed entries, each kept as often as the
      survey recorded it. */
  predicate IsMapOrder(order: seq<Slot>, p: RetentionPolicy, c: Computer, w: World, re: RegexEngine)
  {
    multiset(order) == multiset(SlotsFor(p, c, w, re))
  }

  /** The conflict set the launch branch builds for `c`, by its reference
      definition. */
  function ConflictsFor(p: RetentionPolicy, c: Computer, w: World, re: RegexEngine): set<string>
  {
    ConflictNames(w.computers, c.name, Compile(p.conflictsWith, re), re)
  }

  /** Milliseconds item `k` has been buildable. */
  function AgeMs(w: World, k: nat): int
    requires k < |w.buildable|
  {
    w.now - w.buildable[k].buildableStart
  }

  /** Reference definition of demand: the first item that only `c` can take,
      with the capacity map iterated in `order`, has been buildable for
      longer than the in-demand delay. */
  predicate Needed(p: RetentionPolicy, c: Computer, w: World, canTake: CanTake, order: seq<Slot>)
  {
    exists k: nat | k < |w.buildable| :: FirstUnmetAt(w.buildable, order, k, c.node, canTake)
                  && AgeMs(w, k) > MinutesToMillis(p.inDemandDelay)
  }

  /** Idle milliseconds of `c`. */
  function IdleMs(c: Computer, w: World): int
  {
    w.now - c.idleStart
  }

  /** The periodic check, with the capacity map iterated in `order`. Every
      path but the deferred idle one asks to be called again in one minute. */
  function Check(p: RetentionPolicy, c: Computer, w: World, re: RegexEngine, canTake: CanTake, order: seq<Slot>): (v: Verdict)
    requires IsMapOrder(order, p, c, w, re)
    ensures v.recheck >= 0
    ensures v.action.Connect? || v.action.Suppressed? ==> LaunchBranch(c) && v.recheck == 1
    ensures v.action.Disconnect? ==> !LaunchBranch(c) && c.idle && v.recheck == 1
    ensures v.recheck != 1 ==> !LaunchBranch(c) && c.idle && v.action.NoAction?
  {
    if LaunchBranch(c) then
      var pattern := Compile(p.conflictsWith, re);
      var snapshot := Census(w.computers, c.name, pattern, re);
      var scan := FirstUnmet(w.buildable, order, c.node, canTake);
      var demandMs := if scan.Demand? then AgeMs(w, scan.index) else 0;
      var needComputer := scan.Demand? && demandMs > MinutesToMillis(p.inDemandDelay);
      if needComputer && snapshot.conflicts != {} then Verdict(Suppressed(demandMs, snapshot.conflicts), 1)
      else if needComputer then Verdict(Connect(demandMs), 1)
      else Verdict(NoAction, 1)
    else if c.idle then
      var idleMs := IdleMs(c, w);
      if idleMs > MinutesToMillis(p.idleDelay) then Verdict(Disconnect(idleMs), 1)
      else Verdict(NoAction, MillisToMinutes(MinutesToMillis(p.idleDelay) - idleMs))
    else Verdict(NoAction, 1)
  }

  /** In the launch branch, whatever the map's iteration order, the computer
      is connected exactly when it is needed and nothing conflicts; when it
      is needed and something conflicts the launch is only reported, with
      the conflicting names; otherwise nothing happens. A launch or report
      carries the age of the deciding item. The next check is always in one
      minute. */
  lemma LaunchVerdict(p: RetentionPolicy, c: Computer, w: World, re: RegexEngine, canTake: CanTake, order: seq<Slot>)
    requires IsMapOrder(order, p, c, w, re)
    requires LaunchBranch(c)
    ensures var v := Check(p, c, w, re, canTake, order);
      && v.recheck == 1
      && (v.action.Connect? <==> Needed(p, c, w, canTake, order) && ConflictsFor(p, c, w, re) == {})
      && (v.action.Suppressed? <==> Needed(p, c, w, canTake, order) && ConflictsFor(p, c, w, re) != {})
      && (v.action.Suppressed? ==> v.action.conflicts == ConflictsFor(p, c, w, re))
      && (v.action.NoAction? <==> !Needed(p, c, w, canTake, order))
      && ((v.action.Connect? || v.action.Suppressed?) ==>
            exists k: nat | k < |w.buildable| :: FirstUnmetAt(w.buildable, order, k, c.node, canTake)
                                             && v.action.demandMs == AgeMs(w, k))
  {
    var scan := FirstUnmet(w.buildable, order, c.node, canTake);
    if Needed(p, c, w, canTake, order) {
      var k: nat :| k < |w.buildable| && FirstUnmetAt(w.buildable, order, k, c.node, canTake)
                 && AgeMs(w, k) > MinutesToMillis(p.inDemandDelay);
      FirstUnmetIff(w.buildable, order, k, c.node, canTake);
    } else if scan.Demand? {
      assert !(AgeMs(w, scan.index) > MinutesToMillis(p.inDemandDelay));
    }
  }

  /** Outside the launch branch an idle computer is disconnected exactly when
      it has been idle for longer than the idle delay; otherwise the next
      check comes after the remaining idle time, in whole minutes rounded
      down, which may be zero. */
  lemma IdleVerdict(p: RetentionPolicy, c: Computer, w: World, re: RegexEngine, canTake: CanTake, order: seq<Slot>)
    requires IsMapOrder(order, p, c, w, re)
    requires !LaunchBranch(c) && c.idle
    ensures var v := Check(p, c, w, re, canTake, order);
      var remaining := MinutesToMillis(p.idleDelay) - IdleMs(c, w);
      && (v.action.Disconnect? <==> remaining < 0)
      && (v.action.Disconnect? ==> v.action.idleMs == IdleMs(c, w) && v.recheck == 1)
      && (!v.action.Disconnect? ==>
            v.action.NoAction? && v.recheck * MillisPerMinute <= remaining < (v.recheck + 1) * MillisPerMinute)
  {
  }

  /** A computer that is neither launchable-and-offline nor idle is left
      alone and checked again in one minute. */
  lemma OtherVerdict(p: RetentionPolicy, c: Computer, w: World, re: RegexEngine, canTake: CanTake, order: seq<Slot>)
    requires IsMapOrder(order, p, c, w, re)
    requires !LaunchBranch(c) && !c.idle
    ensures Check(p, c, w, re, canTake, order) == Verdict(NoAction, 1)
  {
  }

  /** An active computer, named differently from `c`, whose name the pattern
      matches, always stops the launch. */
  lemma ConflictPreventsConnect(p: RetentionPolicy, c: Computer, w: World, re: RegexEngine, canTake: CanTake, order: seq<Slot>, i: nat)
    requires IsMapOrder(order, p, c, w, re)
    requires i < |w.computers|
    requires Blocks(w.computers[i], c.name, Compile(p.conflictsWith, re), re)
    ensures !Check(p, c, w, re, canTake, order).action.Connect?
  {
    assert w.computers[i].name in ConflictsFor(p, c, w, re);
  }

  /** A pattern that fails to compile is ignored: the launch is never
      suppressed, and the check behaves as with no pattern at all, for the
      same capacity map in the same order. */
  lemma InvalidPatternIgnored(p: RetentionPolicy, c: Computer, w: World, re: RegexEngine, canTake: CanTake, order: seq<Slot>)
    requires IsMapOrder(order, p, c, w, re)
    requires Compile(p.conflictsWith, re).Invalid?
    ensures !Check(p, c, w, re, canTake, order).action.Suppressed?
    ensures var q := p.(conflictsWith := None);
      && SlotsFor(q, c, w, re) == SlotsFor(p, c, w, re)
      && Check(q, c, w, re, canTake, order) == Check(p, c, w, re, canTake, order)
  {
    var q := p.(conflictsWith := None);
    CensusIgnoresInactivePattern(w.computers, c.name, Compile(p.conflictsWith, re), Compile(q.conflictsWith, re), re);
  }

  /** Two patterns that are both unusable give the same survey. */
  lemma {:induction false} CensusIgnoresInactivePattern(cs: seq<Computer>, cName: string, p1: Compiled, p2: Compiled, re: RegexEngine)
    requires !p1.Active? && !p2.Active?
    ensures Census(cs, cName, p1, re) == Census(cs, cName, p2, re)
  {
    if |cs| > 0 {
      CensusIgnoresInactivePattern(cs[..|cs| - 1], cName, p1, p2, re);
    }
  }

  /** The evaluated computer's own name never suppresses its launch. */
  lemma NoSelfConflict(p: RetentionPolicy, c: Computer, w: World, re: RegexEngine, canTake: CanTake, order: seq<Slot>)
    requires IsMapOrder(order, p, c, w, re)
    ensures var v := Check(p, c, w, re, canTake, order);
      v.action.Suppressed? ==> c.name !in v.action.conflicts && v.action.conflicts != {}
  {
    NeverConflictsWithSelf(w.computers, c.name, Compile(p.conflictsWith, re), re);
  }

  /** Waiting longer never withdraws a launch or a disconnect: the verdict
      at a later clock reading, with the map iterated in the same order, is
      the same kind of action. */
  lemma LaterClockKeepsAction(p: RetentionPolicy, c: Computer, w: World, later: int, re: RegexEngine, canTake: CanTake, order: seq<Slot>)
    requires IsMapOrder(order, p, c, w, re)
    requires w.now <= later
    ensures IsMapOrder(order, p, c, w.(now := later), re)
    ensures var v := Check(p, c, w, re, canTake, order);
      var v' := Check(p, c, w.(now := later), re, canTake, order);
      && (v.action.Connect? ==> v'.action.Connect?)
      && (v.action.Suppressed? ==> v'.action.Suppressed?)
      && (v.action.Disconnect? ==> v'.action.Disconnect?)
  {
  }

  /** With a single buildable item that no surveyed computer can take but
      `c` can, and no conflicts, `c` is launched exactly when the item has
      waited longer than the in-demand delay. */
  lemma LaunchThreshold(p: RetentionPolicy, c: Computer, w: World, re: RegexEngine, canTake: CanTake, order: seq<Slot>)
    requires IsMapOrder(order, p, c, w, re)
    requires LaunchBranch(c)
    requires |w.buildable| == 1
    requires !CanAbsorb(order, w.buildable[0], canTake)
    requires NodeTakes(c.node, w.buildable[0], canTake)
    requires ConflictsFor(p, c, w, re) == {}
    ensures Check(p, c, w, re, canTake, order).action.Connect? <==> AgeMs(w, 0) > MinutesToMillis(p.inDemandDelay)
  {
    LaunchVerdict(p, c, w, re, canTake, order);
    assert FirstUnmetAt(w.buildable, order, 0, c.node, canTake);
    if Needed(p, c, w, canTake, order) {
      var k: nat :| k < |w.buildable| && FirstUnmetAt(w.buildable, order, k, c.node, canTake)
                 && AgeMs(w, k) > MinutesToMillis(p.inDemandDelay);
      assert k == 0;
    }
  }

  /** With a single buildable item that no surveyed computer can take but
      `c` can, and some conflict, a launch is reported as suppressed exactly
      when the item has waited longer than the in-demand delay, and the
      report carries the item's age and the whole conflict set. */
  lemma SuppressThreshold(p: RetentionPolicy, c: Computer, w: World, re: RegexEngine, canTake: CanTake, order: seq<Slot>)
    requires IsMapOrder(order, p, c, w, re)
    requires LaunchBranch(c)
    requires |w.buildable| == 1
    requires !CanAbsorb(order, w.buildable[0], canTake)
    requires NodeTakes(c.node, w.buildable[0], canTake)
    requires ConflictsFor(p, c, w, re) != {}
    ensures var v := Check(p, c, w, re, canTake, order);
      && (v.action.Suppressed? <==> AgeMs(w, 0) > MinutesToMillis(p.inDemandDelay))
      && (v.action.Suppressed? ==> v.action.demandMs == AgeMs(w, 0) && v.action.conflicts == ConflictsFor(p, c, w, re))
  {
    SoleItemIsFirstUnmet(w.buildable, order, c.node, canTake);
    LaunchVerdict(p, c, w, re, canTake, order);
  }

  /** The re-check delay is rounded down: one millisecond into a one-minute
      idle delay the next check is asked for after zero minutes. */
  lemma DeferMayBeZero(c: Computer, w: World, re: RegexEngine, canTake: CanTake, order: seq<Slot>)
    requires IsMapOrder(order, New(0, 1), c, w, re)
    requires !LaunchBranch(c) && c.idle
    requires IdleMs(c, w) == 1
    ensures Check(New(0, 1), c, w, re, canTake, order) == Verdict(NoAction, 0)
  {
  }
}
