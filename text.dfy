/**
 * The parts of java.lang.String that the modelled code relies on:
 * trim, endsWith, lastIndexOf and replaceAll with a literal pattern.
 */
module Text {

  /** String.trim treats every character up to U+0020 as white space. */
  predicate IsTrimmable(c: char) {
    c <= ' '
  }

  /** Drops the leading white space. */
  function TrimStart(s: string): (r: string)
    ensures |r| <= |s| && r == s[|s| - |r|..]
    ensures r == [] || !IsTrimmable(r[0])
    ensures forall i :: 0 <= i < |s| - |r| ==> IsTrimmable(s[i])
  {
    if s != [] && IsTrimmable(s[0]) then
      var r := TrimStart(s[1..]);
      assert forall i :: 1 <= i < |s| - |r| ==> s[i] == s[1..][i - 1];
      r
    else s
  }

  /** Drops the trailing white space. */
  function TrimEnd(s: string): (r: string)
    ensures |r| <= |s| && r == s[..|r|]
    ensures r == [] || !IsTrimmable(r[|r| - 1])
    ensures forall i :: |r| <= i < |s| ==> IsTrimmable(s[i])
  {
    if s != [] && IsTrimmable(s[|s| - 1]) then TrimEnd(s[..|s| - 1]) else s
  }

  /** String.trim: no white space is left at either end. */
  function Trim(s: string): (r: string)
    ensures r == [] || (!IsTrimmable(r[0]) && !IsTrimmable(r[|r| - 1]))
  {
    TrimEnd(TrimStart(s))
  }

  /**
   * Trim keeps one contiguous slice of its input, and whatever it removes on
   * either side is white space.
   */
  lemma TrimIsSlice(s: string) returns (lo: nat, hi: nat)
    ensures lo <= hi <= |s| && Trim(s) == s[lo..hi]
    ensures forall i :: 0 <= i < lo ==> IsTrimmable(s[i])
    ensures forall i :: hi <= i < |s| ==> IsTrimmable(s[i])
  {
    var t := TrimStart(s);
    var r := TrimEnd(t);
    lo := |s| - |t|;
    hi := lo + |r|;
    assert t == s[lo..];
    assert r == t[..|r|];
    assert s[lo..][..|r|] == s[lo..hi];
    forall i | hi <= i < |s|
      ensures IsTrimmable(s[i])
    {
      assert s[i] == t[i - lo];
    }
  }

  /** String.endsWith. */
  predicate EndsWith(s: string, suffix: string) {
    |suffix| <= |s| && s[|s| - |suffix|..] == suffix
  }

  /** String.lastIndexOf for a one-character argument: -1 when c does not occur. */
  function LastIndexOf(s: string, c: char): (r: int)
    ensures -1 <= r < |s|
    ensures r == -1 <==> c !in s
    ensures 0 <= r ==> s[r] == c && forall j :: r < j < |s| ==> s[j] != c
  {
    if s == [] then -1
    else if s[|s| - 1] == c then |s| - 1
    else
      var r := LastIndexOf(s[..|s| - 1], c);
      assert s == s[..|s| - 1] + [s[|s| - 1]];
      r
  }

  /** True when pat occurs in s starting at position i. */
  predicate OccursAt(s: string, pat: string, i: int) {
    0 <= i && i + |pat| <= |s| && s[i..i + |pat|] == pat
  }

  /**
   * Matcher.replaceAll for a pattern without regular-expression metacharacters:
   * the leftmost occurrence is replaced first and the search resumes after it,
   * so occurrences never overlap.
   */
  function ReplaceAll(s: string, pat: string, rep: string): string
    requires pat != []
    decreases |s|
  {
    if OccursAt(s, pat, 0) then rep + ReplaceAll(s[|pat|..], pat, rep)
    else if s == [] then []
    else [s[0]] + ReplaceAll(s[1..], pat, rep)
  }

  /** Text in which the pattern does not occur is left as it is. */
  lemma {:induction false} ReplaceAllAbsent(s: string, pat: string, rep: string)
    requires pat != []
    requires forall i :: !OccursAt(s, pat, i)
    ensures ReplaceAll(s, pat, rep) == s
    decreases |s|
  {
    if s != [] {
      forall i ensures !OccursAt(s[1..], pat, i) {
        if 0 <= i {
          OccursShift(s, pat, i);
        }
      }
      ReplaceAllAbsent(s[1..], pat, rep);
    }
  }

  /** An occurrence in the tail is an occurrence one place further in the whole text. */
  lemma OccursShift(s: string, pat: string, i: nat)
    requires s != []
    ensures OccursAt(s[1..], pat, i) <==> OccursAt(s, pat, i + 1)
  {
    if i + |pat| <= |s| - 1 {
      assert s[1..][i..i + |pat|] == s[i + 1..i + 1 + |pat|];
    }
  }

  /** In particular, text without the pattern's first character is left as it is. */
  lemma ReplaceAllWithoutLead(s: string, pat: string, rep: string)
    requires pat != [] && pat[0] !in s
    ensures ReplaceAll(s, pat, rep) == s
  {
    assert forall i :: OccursAt(s, pat, i) ==> s[i..i + |pat|][0] == s[i];
    ReplaceAllAbsent(s, pat, rep);
  }

  /** A leading occurrence is replaced and the scan goes on behind it. */
  lemma ReplaceAllLeading(pat: string, s: string, rep: string)
    requires pat != []
    ensures ReplaceAll(pat + s, pat, rep) == rep + ReplaceAll(s, pat, rep)
  {
    var t := pat + s;
    assert t[..|pat|] == pat;
    assert t[|pat|..] == s;
  }
}
