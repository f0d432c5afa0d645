/** The survey of the cluster that the launch branch makes before scanning
    the queue: one pass over every computer, in registry order, collecting
    the conflict set (names of active computers that block the launch) and
    the capacity map (active, unconflicted computers with idle executors). */
module Survey {
  import opened Cluster
  import opened Pattern
  import opened Capacity

  datatype Snapshot = Snapshot(conflicts: set<string>, slots: seq<Slot>)

  /** `o` blocks the launch of the computer named `cName`: it is online or
      connecting, it is not named `cName`, and the pattern finds a match in
      its name. Busy or not does not matter. */
  predicate Blocks(o: Computer, cName: string, p: Compiled, re: RegexEngine)
  {
    o.IsActive() && o.name != cName && Finds(p, re, o.name)
  }

  /** `o` offers its idle executors to the queue scan. */
  predicate Provides(o: Computer, cName: string, p: Compiled, re: RegexEngine)
  {
    && o.IsActive()
    && !Blocks(o, cName, p, re)
    && o.partiallyIdle
    && o.acceptingTasks
    && o.countIdle > 0
  }

  /** Reference definition of the conflict set. */
  function ConflictNames(cs: seq<Computer>, cName: string, p: Compiled, re: RegexEngine): set<string>
  {
    set i | 0 <= i < |cs| && Blocks(cs[i], cName, p, re) :: cs[i].name
  }

  /** Reference definition of the capacity map: one entry per providing
      computer, in registry order, offering its idle executors. */
  function ProviderSlots(cs: seq<Computer>, cName: string, p: Compiled, re: RegexEngine): seq<Slot>
  {
    if |cs| == 0 then []
    else
      var o := cs[|cs| - 1];
      ProviderSlots(cs[..|cs| - 1], cName, p, re) + (if Provides(o, cName, p, re) then [Slot(o, o.countIdle)] else [])
  }

  /** One iteration of the survey loop: the conflict test comes first and
      the capacity test reads the conflict set it has just updated. */
  function Visit(acc: Snapshot, o: Computer, cName: string, p: Compiled, re: RegexEngine): Snapshot
  {
    if !o.IsActive() then acc
    else
      var conflicts :=
        if p.Active? && o.name != cName && re.finds(p.source, o.name) then acc.conflicts + {o.name}
        else acc.conflicts;
      var slots :=
        if o.name !in conflicts && o.partiallyIdle && o.acceptingTasks && o.countIdle > 0
        then acc.slots + [Slot(o, o.countIdle)]
        else acc.slots;
      Snapshot(conflicts, slots)
  }

  /** The survey loop over `cs` in order. Its conflict set is the reference
      set; its capacity map is the reference map, holding each providing
      computer once, with its idle-executor count. */
  function Census(cs: seq<Computer>, cName: string, p: Compiled, re: RegexEngine): (s: Snapshot)
    ensures s.conflicts == ConflictNames(cs, cName, p, re)
    ensures s.slots == ProviderSlots(cs, cName, p, re)
    ensures forall e | e in s.slots :: e.comp in cs && Provides(e.comp, cName, p, re) && e.count == e.comp.countIdle
    ensures forall i | 0 <= i < |cs| && Provides(cs[i], cName, p, re) :: Slot(cs[i], cs[i].countIdle) in s.slots
  {
    if |cs| == 0 then Snapshot({}, [])
    else
      var front := cs[..|cs| - 1];
      var o := cs[|cs| - 1];
      var acc := Census(front, cName, p, re);
      ConflictNamesExtend(cs, cName, p, re);
      assert forall i | 0 <= i < |front| :: front[i] == cs[i];
      assert o.IsActive() ==> (o.name in ConflictNames(cs, cName, p, re) <==> Blocks(o, cName, p, re)) by {
        if o.IsActive() && o.name in ConflictNames(cs, cName, p, re) {
          var i :| 0 <= i < |cs| && Blocks(cs[i], cName, p, re) && cs[i].name == o.name;
        }
      }
      Visit(acc, o, cName, p, re)
  }

  /** Adding one computer at the end adds its name exactly when it blocks. */
  lemma ConflictNamesExtend(cs: seq<Computer>, cName: string, p: Compiled, re: RegexEngine)
    requires |cs| > 0
    ensures ConflictNames(cs, cName, p, re)
         == ConflictNames(cs[..|cs| - 1], cName, p, re)
          + (if Blocks(cs[|cs| - 1], cName, p, re) then {cs[|cs| - 1].name} else {})
  {
    var front := cs[..|cs| - 1];
    forall n | n in ConflictNames(cs, cName, p, re)
      ensures n in ConflictNames(front, cName, p, re) || (Blocks(cs[|cs| - 1], cName, p, re) && n == cs[|cs| - 1].name)
    {
      var i :| 0 <= i < |cs| && Blocks(cs[i], cName, p, re) && cs[i].name == n;
      if i < |cs| - 1 {
        assert front[i] == cs[i];
      }
    }
    forall n | n in ConflictNames(front, cName, p, re)
      ensures n in ConflictNames(cs, cName, p, re)
    {
      var i :| 0 <= i < |front| && Blocks(front[i], cName, p, re) && front[i].name == n;
      assert cs[i] == front[i];
    }
  }

  /** The evaluated computer never conflicts with itself. */
  lemma NeverConflictsWithSelf(cs: seq<Computer>, cName: string, p: Compiled, re: RegexEngine)
    ensures cName !in Census(cs, cName, p, re).conflicts
  {
  }

  /** Without a usable pattern (none configured, empty, or failing to
      compile) the conflict set is empty. */
  lemma NoPatternNoConflicts(cs: seq<Computer>, cName: string, p: Compiled, re: RegexEngine)
    requires !p.Active?
    ensures Census(cs, cName, p, re).conflicts == {}
  {
  }

  /** Every name in the conflict set belongs to an active, other computer
      whose name the pattern matches, and every such computer is in it. */
  lemma ConflictSetIsExact(cs: seq<Computer>, cName: string, p: Compiled, re: RegexEngine, n: string)
    ensures n in Census(cs, cName, p, re).conflicts
        <==> exists i | 0 <= i < |cs| :: cs[i].name == n && Blocks(cs[i], cName, p, re)
  {
  }

  /** No provider in the capacity map is named in the conflict set, and
      every count in it is positive. */
  lemma ProvidersDoNotConflict(cs: seq<Computer>, cName: string, p: Compiled, re: RegexEngine)
    ensures var s := Census(cs, cName, p, re);
      && AllPositive(s.slots)
      && forall e | e in s.slots :: e.comp.name !in s.conflicts
  {
  }
}
