/** The `conflictsWith` pattern as one evaluation compiles it. The regular
    expression engine is a foreign library, so it enters as an oracle:
    whether a source string compiles, and whether a compiled pattern finds
    a match anywhere inside a name (an unanchored search). */
module Pattern {
  import opened Cluster

  datatype RegexEngine = RegexEngine(compiles: string -> bool, finds: (string, string) -> bool)

  /** Absent or empty setting, a pattern that failed to compile (the
      failure is logged and swallowed), or a usable pattern. */
  datatype Compiled = Disabled | Invalid(source: string) | Active(source: string)

  function Compile(conflictsWith: Option<string>, re: RegexEngine): (p: Compiled)
    ensures p.Disabled? <==> conflictsWith == None || conflictsWith == Some("")
    ensures p.Active? ==> conflictsWith == Some(p.source) && re.compiles(p.source)
    ensures p.Invalid? ==> conflictsWith == Some(p.source) && !re.compiles(p.source)
  {
    match conflictsWith
    case None => Disabled
    case Some(source) =>
      if source == "" then Disabled
      else if re.compiles(source) then Active(source)
      else Invalid(source)
  }

  /** Only an active pattern ever matches a name. */
  predicate Finds(p: Compiled, re: RegexEngine, name: string)
  {
    p.Active? && re.finds(p.source, name)
  }
}
