/** Java's String.trim: strip every leading and trailing character whose
    code is at most U+0020 (space and the control characters). */
module Text {

  predicate IsTrimmable(ch: char)
  {
    ch <= ' '
  }

  /** Number of trimmable characters at the front of `s`. */
  function LeadingCount(s: string): (n: nat)
    ensures n <= |s|
    ensures forall k | 0 <= k < n :: IsTrimmable(s[k])
    ensures n < |s| ==> !IsTrimmable(s[n])
  {
    if |s| == 0 || !IsTrimmable(s[0]) then 0 else 1 + LeadingCount(s[1..])
  }

  /** Number of trimmable characters at the back of `s`. */
  function TrailingCount(s: string): (n: nat)
    ensures n <= |s|
    ensures forall k | |s| - n <= k < |s| :: IsTrimmable(s[k])
    ensures n < |s| ==> !IsTrimmable(s[|s| - n - 1])
  {
    if |s| == 0 || !IsTrimmable(s[|s| - 1]) then 0 else 1 + TrailingCount(s[..|s| - 1])
  }

  /** The slice of `s` left after removing the maximal trimmable prefix and
      suffix: it neither starts nor ends with a trimmable character, and
      everything cut off on either side is trimmable. */
  function Trim(s: string): (r: string)
    ensures LeadingCount(s) + |r| <= |s|
    ensures r == s[LeadingCount(s)..LeadingCount(s) + |r|]
    ensures forall k | LeadingCount(s) + |r| <= k < |s| :: IsTrimmable(s[k])
    ensures r == [] || (!IsTrimmable(r[0]) && !IsTrimmable(r[|r| - 1]))
  {
    var rest := s[LeadingCount(s)..];
    rest[..|rest| - TrailingCount(rest)]
  }

  /** `value.trim().equals("")` */
  predicate IsBlank(s: string)
  {
    Trim(s) == []
  }

  lemma BlankIffAllTrimmable(s: string)
    ensures IsBlank(s) <==> forall k | 0 <= k < |s| :: IsTrimmable(s[k])
  {
    if !IsBlank(s) {
      var r := Trim(s);
      assert r[0] == s[LeadingCount(s)];
    }
  }

  lemma TrimIdempotent(s: string)
    ensures Trim(Trim(s)) == Trim(s)
  {
    var r := Trim(s);
    if r != [] {
      assert LeadingCount(r) == 0;
      assert TrailingCount(r[0..]) == 0;
    }
  }
}
