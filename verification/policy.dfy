/** The retention policy's configuration: the clamping constructor, the
    trimming setter for `conflictsWith`, and the form validator for it. */
module Policy {
  import opened Cluster
  import opened Text
  import opened Pattern

  /** Delays are in minutes; `conflictsWith` is None until the setter runs. */
  datatype RetentionPolicy = RetentionPolicy(inDemandDelay: int, idleDelay: int, conflictsWith: Option<string>)
  {
    predicate Valid()
    {
      inDemandDelay >= 0 && idleDelay >= 1
    }
  }

  /** The constructor raises each delay to its floor: 0 for the in-demand
      delay, 1 for the idle delay. */
  function New(inDemandDelay: int, idleDelay: int): (p: RetentionPolicy)
    ensures p.Valid()
    ensures p.inDemandDelay >= inDemandDelay && (p.inDemandDelay == inDemandDelay || p.inDemandDelay == 0)
    ensures p.idleDelay >= idleDelay && (p.idleDelay == idleDelay || p.idleDelay == 1)
    ensures p.conflictsWith == None
  {
    RetentionPolicy(if inDemandDelay < 0 then 0 else inDemandDelay,
                    if idleDelay < 1 then 1 else idleDelay,
                    None)
  }

  /** Stores the value with surrounding whitespace and control characters
      removed; nothing else changes. */
  function SetConflictsWith(p: RetentionPolicy, value: string): (q: RetentionPolicy)
    ensures q.inDemandDelay == p.inDemandDelay && q.idleDelay == p.idleDelay
    ensures q.conflictsWith.Some?
    ensures var v := q.conflictsWith.value;
      && LeadingCount(value) + |v| <= |value|
      && v == value[LeadingCount(value)..LeadingCount(value) + |v|]
      && (v == [] || (!IsTrimmable(v[0]) && !IsTrimmable(v[|v| - 1])))
      && (forall k | 0 <= k < LeadingCount(value) :: IsTrimmable(value[k]))
      && (forall k | LeadingCount(value) + |v| <= k < |value| :: IsTrimmable(value[k]))
    ensures q.conflictsWith.value == [] <==> IsBlank(value)
  {
    p.(conflictsWith := Some(Trim(value)))
  }

  /** Outcome of the configuration form's check. */
  datatype Validation = Ok | Error

  /** The form validator as written: a null or blank value is fine;
      otherwise the value, untrimmed, must compile. */
  function CheckConflictsWith(value: Option<string>, re: RegexEngine): (v: Validation)
    ensures v.Ok? <==> value.None? || IsBlank(value.value) || re.compiles(value.value)
    ensures v.Error? <==> value.Some? && !IsBlank(value.value) && !re.compiles(value.value)
  {
    if value.Some? && !IsBlank(value.value) && !re.compiles(value.value) then Error else Ok
  }

  /** The validator approves a value that the setter then stores in a form
      that does not compile: java.util.regex accepts "x\ " (an escaped
      space) but rejects "x\" (a trailing backslash), and trimming turns the
      first into the second. */
  lemma ValidatedPatternMayNotCompile(p: RetentionPolicy, re: RegexEngine)
    requires re.compiles("x\\ ") && !re.compiles("x\\")
    ensures CheckConflictsWith(Some("x\\ "), re) == Ok
    ensures Compile(SetConflictsWith(p, "x\\ ").conflictsWith, re) == Invalid("x\\")
  {
    assert LeadingCount("x\\ ") == 0;
    assert TrailingCount("x\\ ") == 1 by {
      assert TrailingCount("x\\") == 0;
      assert "x\\ "[..2] == "x\\";
    }
    assert Trim("x\\ ") == "x\\";
  }

  /** The validator checking the value the setter will store. */
  function CheckTrimmedConflictsWith(value: Option<string>, re: RegexEngine): (v: Validation)
    ensures v.Ok? <==> value.None? || IsBlank(value.value) || re.compiles(Trim(value.value))
  {
    if value.Some? && !IsBlank(value.value) && !re.compiles(Trim(value.value)) then Error else Ok
  }

  /** With the corrected validator, a value it approves never makes the
      strategy's own compilation fail, and a value it rejects always does. */
  lemma TrimmedValidationAgreesWithCompile(p: RetentionPolicy, value: string, re: RegexEngine)
    ensures CheckTrimmedConflictsWith(Some(value), re).Ok?
        <==> !Compile(SetConflictsWith(p, value).conflictsWith, re).Invalid?
  {
  }
}
