# Conflict-aware on-demand retention strategy, modelled in Dafny

This project models `OnDemandNoConflicts`, a Jenkins retention strategy for agents
("computers"). On every tick Jenkins calls its `check` for one computer `c`, and the
strategy does one of the following:

- **Launch.** If `c` is offline and can be launched, the strategy surveys the cluster.
  The survey yields a **conflict set**: active computers whose names the `conflictsWith`
  regular expression matches. It also yields a **capacity map**: other active,
  unconflicted computers with idle executors.
  - The strategy then walks the buildable queue. Each item is first offered to the
    capacity map, one executor per item.
  - The first item that nobody in the map can take but `c`'s node can take decides the
    outcome. `c` is needed when that item has been buildable for longer than
    `inDemandDelay` minutes.
  - A needed computer is connected when the conflict set is empty. When the set is not
    empty, the launch is only reported.
- **Disconnect.** Otherwise an idle computer is disconnected once it has been idle for
  longer than `idleDelay` minutes.
- **Defer.** An idle computer that has not yet passed `idleDelay` asks to be checked
  again after the remaining idle time, in whole minutes.
- **No-op.** Every other path asks to be checked again in one minute.

The model also covers the constructor (it clamps both delays), the `conflictsWith`
setter (it trims the value) and the configuration form's validator for that value.

Modules, one per component:

- `Cluster` (cluster.dfy): computers, nodes, buildable items, and the capability test
  `CanTake`. The capability test is a function parameter.
- `Time` (time.dfy): minutes to milliseconds, and milliseconds to whole minutes
  truncated toward zero.
- `Text` (text.dfy): Java's `String.trim`, which strips characters up to U+0020.
- `Pattern` (pattern.dfy): the regex engine as an oracle. The engine says whether a
  source string compiles and whether a pattern finds a match in a name. Compiling the
  configured value gives `Disabled`, `Invalid` or `Active`.
- `Policy` (policy.dfy): the configuration record, the constructor, the setter and the
  validator.
- `Capacity` (capacity.dfy): the capacity map as a sequence of slots, and the
  absorption of one item.
- `Survey` (survey.dfy): the survey loop that builds the conflict set and the capacity
  map.
- `Demand` (demand.dfy): the queue scan, written as a fold that threads the capacity
  map through the items.
- `Retention` (retention.dfy): `check` as a pure function that returns an action and a
  re-check delay.
- `Scenarios` (scenarios.dfy): end-to-end situations of `check`.

Two consequences of the code that are easy to miss:

- **The defer delay rounds down.** `TimeUnit.MILLISECONDS.toMinutes` truncates (line
  205), so the delay can be 0 while idle time remains. `Retention.DeferMayBeZero`
  exhibits a delay of 0.
- **Non-launchable offline computers reach the idle branch.** The idle branch is an
  `else if` (line 194), so an offline computer that cannot be launched is still checked
  for idleness and may be disconnected.

The survey visits every computer, `c` included. Only the conflict test skips `c`'s
own name. So an offline `c` that is still connecting and has idle executors would
offer them to the queue scan, as it does in the code.

Inputs that the source reads from ambient state are parameters here:

- the computer list and the buildable queue (from the `Jenkins` and `Queue` singletons);
- the clock (`System.currentTimeMillis`), as `World.now`;
- the regex engine and the nodes' `canTake`.

The capacity map is a `HashMap`, so the order in which the queue scan iterates it is
not fixed by the source, and it can decide the outcome: `Demand.MapOrderMatters` shows
two providers whose order turns demand into no demand. The survey builds the map's
entries in registry order (`Survey.ProviderSlots`). `Retention.Check` takes the
iteration order as an input (`order`), which must hold the same entries with the same
multiplicities (`Retention.IsMapOrder`). Absorption gives an item to the first entry,
in that order, whose node takes it. Every `Retention` lemma holds for every such order.

## Model

| member | source | states |
|---|---|---|
| Policy.New | src/main/java/io/jenkins/plugins/noconflict/OnDemandNoConflicts.java:60-64 | Afterwards the in-demand delay is at least 0 and the idle delay is at least 1. Each delay is the larger of its floor and the argument, and no conflict pattern is set. |
| Policy.SetConflictsWith | src/main/java/io/jenkins/plugins/noconflict/OnDemandNoConflicts.java:96-99 | The stored pattern is the slice of the value left after stripping leading and trailing characters up to U+0020. Everything stripped from either end is such a character, and the stored pattern neither starts nor ends with one. It is empty exactly when the value is blank. The delays do not change. |
| Text.Trim | src/main/java/io/jenkins/plugins/noconflict/OnDemandNoConflicts.java:98 | The result is a contiguous slice of the input. Everything cut from either end is at most U+0020, and the result neither starts nor ends with such a character. |
| Text.TrimIdempotent | src/main/java/io/jenkins/plugins/noconflict/OnDemandNoConflicts.java:98 | Trimming a trimmed value changes nothing. |
| Text.BlankIffAllTrimmable | src/main/java/io/jenkins/plugins/noconflict/OnDemandNoConflicts.java:228 | A value is blank exactly when every one of its characters is at most U+0020. |
| Pattern.Compile | src/main/java/io/jenkins/plugins/noconflict/OnDemandNoConflicts.java:105-117 | An absent or empty setting disables conflict checking. A setting that compiles becomes the active pattern. A setting that does not compile becomes `Invalid`: the failure is recorded, not raised. |
| Survey.Census | src/main/java/io/jenkins/plugins/noconflict/OnDemandNoConflicts.java:119-146 | The survey loop's conflict set equals the reference set: names of online or connecting computers, named differently from `c`, in which the pattern finds a match. Its capacity map equals the reference map: one entry per such provider (active, unconflicted, partially idle, accepting tasks, with idle executors), in registry order, carrying its idle count. |
| Survey.ConflictSetIsExact | src/main/java/io/jenkins/plugins/noconflict/OnDemandNoConflicts.java:126-137 | A name is in the conflict set if and only if some active computer with that name, other than `c`, matches the pattern. |
| Survey.NeverConflictsWithSelf | src/main/java/io/jenkins/plugins/noconflict/OnDemandNoConflicts.java:128 | `c`'s own name is never in its conflict set, whatever the pattern. |
| Survey.NoPatternNoConflicts | src/main/java/io/jenkins/plugins/noconflict/OnDemandNoConflicts.java:106-117 | With no pattern, an empty pattern or one that failed to compile, the conflict set is empty. |
| Survey.ProvidersDoNotConflict | src/main/java/io/jenkins/plugins/noconflict/OnDemandNoConflicts.java:138-144 | No capacity-map entry is named in the conflict set, and every count in the map is positive. |
| Capacity.FirstTaker | src/main/java/io/jenkins/plugins/noconflict/OnDemandNoConflicts.java:154-156 | The chosen provider has a node that takes the item, and no earlier provider does. |
| Capacity.Absorb | src/main/java/io/jenkins/plugins/noconflict/OnDemandNoConflicts.java:153-166 | When no provider takes the item, the capacity map is unchanged. |
| Capacity.AbsorbDecrementsFirstTaker | src/main/java/io/jenkins/plugins/noconflict/OnDemandNoConflicts.java:154-160 | When the first provider that takes the item has more than one idle executor, absorbing lowers its count by one. Every other entry keeps its place and count. |
| Capacity.AbsorbRemovesFirstTaker | src/main/java/io/jenkins/plugins/noconflict/OnDemandNoConflicts.java:154-163 | When the first provider that takes the item has one idle executor, absorbing removes its entry. Every other entry stays, in the same order. |
| Capacity.AbsorbUsesOneExecutor | src/main/java/io/jenkins/plugins/noconflict/OnDemandNoConflicts.java:153-166 | Counts stay positive. The total of idle executors drops by exactly one when the item is absorbed, and by none otherwise. |
| Demand.FirstUnmet | src/main/java/io/jenkins/plugins/noconflict/OnDemandNoConflicts.java:148-175 | The scan stops at item `k` only if `k` is the first unmet item. An unmet item is one that the capacity map left by the earlier items cannot absorb and that `c`'s present node takes. When the scan finds nothing, no item is unmet. |
| Demand.FirstUnmetIff | src/main/java/io/jenkins/plugins/noconflict/OnDemandNoConflicts.java:168-174 | The scan decides on item `k` if and only if `k` is the first unmet item. |
| Demand.LaterItemsIrrelevant | src/main/java/io/jenkins/plugins/noconflict/OnDemandNoConflicts.java:170-173 | Once an item decides, appending more items to the queue does not change the outcome. |
| Demand.OneExecutorServesOnlyFirstItem | src/main/java/io/jenkins/plugins/noconflict/OnDemandNoConflicts.java:150-174 | Take one provider with one idle executor that could take both of two items. The first item is absorbed. The second is unmet exactly when `c` can take it. |
| Demand.MapOrderMatters | src/main/java/io/jenkins/plugins/noconflict/OnDemandNoConflicts.java:150-174 | Provider `a` takes both of two items and provider `b` only the first, one idle executor each, and `c` takes the second. Iterating `a` first makes the second item decide the scan. Iterating `b` first leaves no item unmet. |
| Demand.SoleItemIsFirstUnmet | src/main/java/io/jenkins/plugins/noconflict/OnDemandNoConflicts.java:150-174 | A single item that the capacity map cannot absorb but `c`'s node takes is the first unmet item, and the scan decides on it. |
| Time.MillisToMinutes | src/main/java/io/jenkins/plugins/noconflict/OnDemandNoConflicts.java:205 | Whole minutes are truncated toward zero: for a non-negative span the result is the floor. |
| Retention.Check | src/main/java/io/jenkins/plugins/noconflict/OnDemandNoConflicts.java:103-208 | The re-check delay is never negative. A launch or suppressed launch happens only for an offline launchable computer, with delay 1. A disconnect happens only to an idle computer outside that branch, with delay 1. Any other delay comes from a deferred idle computer. |
| Retention.LaunchVerdict | src/main/java/io/jenkins/plugins/noconflict/OnDemandNoConflicts.java:104-193 | For an offline launchable computer and any iteration order of the capacity map, the delay is always 1. `connect` happens if and only if `c` is needed and the conflict set is empty. The launch is suppressed, carrying the conflict set, if and only if `c` is needed and the set is not empty. Nothing happens if and only if `c` is not needed. Needed means the first unmet item has waited longer than the in-demand delay. A launch or report carries that item's buildable age. |
| Retention.IdleVerdict | src/main/java/io/jenkins/plugins/noconflict/OnDemandNoConflicts.java:194-206 | An idle computer outside the launch branch is disconnected if and only if its idle time exceeds the idle delay; the disconnect carries the idle time, with delay 1. Otherwise nothing happens, and the delay is the remaining idle time in whole minutes, rounded down. |
| Retention.OtherVerdict | src/main/java/io/jenkins/plugins/noconflict/OnDemandNoConflicts.java:194-208 | A computer that is neither offline-and-launchable nor idle gets no action and delay 1. |
| Retention.ConflictPreventsConnect | src/main/java/io/jenkins/plugins/noconflict/OnDemandNoConflicts.java:177-185 | An active, differently named computer that the pattern matches always prevents `connect`. |
| Retention.InvalidPatternIgnored | src/main/java/io/jenkins/plugins/noconflict/OnDemandNoConflicts.java:108-117 | A pattern that fails to compile never suppresses a launch. The verdict equals the one with no pattern configured. |
| Retention.NoSelfConflict | src/main/java/io/jenkins/plugins/noconflict/OnDemandNoConflicts.java:128-135 | A suppressed launch reports a non-empty conflict set that does not contain `c`'s own name. |
| Retention.LaterClockKeepsAction | src/main/java/io/jenkins/plugins/noconflict/OnDemandNoConflicts.java:171-196 | With a later clock reading and nothing else changed, a launch stays a launch, a suppressed launch stays suppressed, and a disconnect stays a disconnect. |
| Retention.LaunchThreshold | src/main/java/io/jenkins/plugins/noconflict/OnDemandNoConflicts.java:168-190 | Take one item that only `c` can take, and no conflicts. `c` is launched if and only if the item's buildable age exceeds the in-demand delay. |
| Retention.SuppressThreshold | src/main/java/io/jenkins/plugins/noconflict/OnDemandNoConflicts.java:168-185 | Take one item that only `c` can take, and a non-empty conflict set. The launch is reported as suppressed if and only if the item's buildable age exceeds the in-demand delay. The report carries that age and the whole conflict set. |
| Retention.DeferMayBeZero | src/main/java/io/jenkins/plugins/noconflict/OnDemandNoConflicts.java:203-206 | One millisecond into a one-minute idle delay, the deferred re-check delay is 0. |
| Scenarios.LaunchWhenInDemand | src/main/java/io/jenkins/plugins/noconflict/OnDemandNoConflicts.java:168-192 | In-demand delay 5 minutes, no pattern, one item only `c` can take, waiting 6 minutes: `c` is connected. |
| Scenarios.SuppressWhenConflicting | src/main/java/io/jenkins/plugins/noconflict/OnDemandNoConflicts.java:126-184 | The same with pattern `^Y` and an online `Y1`: the launch is suppressed, and the report names `Y1`. |
| Scenarios.YConflicts | src/main/java/io/jenkins/plugins/noconflict/OnDemandNoConflicts.java:126-137 | With the pattern `^Y` active, an online computer named `Y1`, other than `c`, is in `c`'s conflict set. |
| Scenarios.YPattern | src/main/java/io/jenkins/plugins/noconflict/OnDemandNoConflicts.java:96-117 | The setter stores `^Y` unchanged, and a compiling engine turns it into the active pattern `^Y`. |
| Scenarios.DeferWhenRecentlyIdle | src/main/java/io/jenkins/plugins/noconflict/OnDemandNoConflicts.java:194-206 | Idle 3 minutes under a 10-minute idle delay: no action, re-check in 7 minutes. |
| Scenarios.DisconnectWhenIdleLong | src/main/java/io/jenkins/plugins/noconflict/OnDemandNoConflicts.java:194-202 | Idle 11 minutes under a 10-minute idle delay: disconnect with the idle time, re-check in 1 minute. |
| Policy.CheckConflictsWith | src/main/java/io/jenkins/plugins/noconflict/OnDemandNoConflicts.java:225-238 | The validator returns ok if and only if the value is null, is blank, or compiles as given (untrimmed). It returns an error if and only if a non-blank value fails to compile. |
| Policy.ValidatedPatternMayNotCompile | src/main/java/io/jenkins/plugins/noconflict/OnDemandNoConflicts.java:225-238 | Suppose the engine accepts `x\ ` and rejects `x\`. Then the validator approves `x\ `, yet the pattern the setter stores for it fails to compile. |
| Policy.CheckTrimmedConflictsWith | src/main/java/io/jenkins/plugins/noconflict/OnDemandNoConflicts.java:225-238 | The corrected validator returns ok if and only if the value is null, is blank, or compiles after trimming. |
| Policy.TrimmedValidationAgreesWithCompile | src/main/java/io/jenkins/plugins/noconflict/OnDemandNoConflicts.java:96-117 | The corrected validator approves a value if and only if the pattern the setter stores for it does not end up `Invalid` in `check`. |

## Left out

- Regular-expression semantics: compiling and `find` come from an oracle (`Pattern.RegexEngine`), because `java.util.regex` is a foreign library.
- Logging, `MessageFormat` texts, `Util.getTimeSpanString` and listener output: these are output formatting. The model keeps the values the messages carry: demand time, conflicting names and idle time.
- `connect`, `disconnect` and `OfflineCause.IdleOfflineCause`: these appear only as the emitted `Retention.Action`.
- The `Jenkins.get()` and `Queue.getInstance()` singletons, and the `Queue.lock` guard: ambient state and locking. Computers, items and the clock are explicit inputs.
- The getters, `getDisplayName`, `Messages`, `FormValidation` messages and Stapler annotations: these are UI plumbing. The validator result is just `Ok` or `Error`.
- The validator's `catch (Failure …)` branch: `Pattern.compile` does not throw it, so both error branches are one `Error`.
- Policy.SetConflictsWith: takes a non-null string. A null value makes the source throw a `NullPointerException`, which is not modelled.
- Time.MinutesToMillis: does not model `TimeUnit`'s saturation at the bounds of a 64-bit `long`. All time arithmetic uses unbounded integers.
- Retention.Check: takes one iteration order for the whole queue scan. A decremented entry keeps its place in that order, whereas a `HashMap` re-insert of the same key may move it within its hash bucket.
- Computer identity: the source's `HashMap` key is the `Computer` object. Here each capacity entry is a position in a sequence, so two equal snapshots stay two entries.

## Findings

| source | as written | input that shows it | evidently intended | confidence | as-written member | corrected member |
|---|---|---|---|---|---|---|
| src/main/java/io/jenkins/plugins/noconflict/OnDemandNoConflicts.java:225-238 | The validator compiles the value as typed. The setter (line 98) stores it trimmed, and `check` compiles the trimmed form. | `x\ ` (x, backslash, space). `java.util.regex` compiles it as an escaped space. Trimmed to `x\`, it ends in a lone backslash and fails to compile, so `check` logs and ignores it. | Validate the value the strategy will actually use, that is, the trimmed one. | low (not executed) | Policy.ValidatedPatternMayNotCompile | Policy.CheckTrimmedConflictsWith |
