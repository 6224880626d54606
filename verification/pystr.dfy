/** The few Python `str` operations the scripts rely on, with Python's semantics. */
module PyStr {

  /** `s.endswith(suffix)`. */
  predicate EndsWith(s: string, suffix: string)
  {
    |suffix| <= |s| && s[|s| - |suffix|..] == suffix
  }

  /** The characters of a matched suffix, position by position from the end. */
  lemma EndsWithChars(s: string, suffix: string)
    requires EndsWith(s, suffix)
    ensures forall i :: 0 <= i < |suffix| ==> s[|s| - |suffix| + i] == suffix[i]
  {
    forall i | 0 <= i < |suffix|
      ensures s[|s| - |suffix| + i] == suffix[i]
    {
      assert s[|s| - |suffix|..][i] == s[|s| - |suffix| + i];
    }
  }

  /** A longer suffix implies the shorter suffix it ends with. */
  lemma EndsWithTrans(s: string, suffix: string, tail: string)
    requires EndsWith(s, suffix) && EndsWith(suffix, tail)
    ensures EndsWith(s, tail)
  {
    assert s[|s| - |tail|..] == s[|s| - |suffix|..][|suffix| - |tail|..];
  }

  /** The slice `s[:k]`: a negative `k` counts from the end, and an index beyond
      either end is clamped, so the slice never fails. */
  function Prefix(s: string, k: int): (r: string)
    ensures |r| <= |s| && r == s[..|r|]
    ensures 0 <= k <= |s| ==> |r| == k
    ensures 0 < -k <= |s| ==> |r| == |s| + k
    ensures |s| < k ==> r == s
    ensures |s| < -k ==> r == ""
  {
    if 0 <= k then
      (if k <= |s| then s[..k] else s)
    else if 0 <= |s| + k then s[..|s| + k]
    else ""
  }

  /** `s.rfind(c)` for a single character: the index of the last `c`, or -1. */
  function RFind(s: string, c: char): (r: int)
    ensures -1 <= r < |s|
    ensures 0 <= r ==> s[r] == c
    ensures forall j :: r < j < |s| ==> s[j] != c
  {
    if |s| == 0 then -1
    else if s[|s| - 1] == c then |s| - 1
    else RFind(s[..|s| - 1], c)
  }

  /** `p in s`: `p` occurs somewhere in `s` as a contiguous piece. */
  predicate Contains(s: string, p: string)
    decreases |s|
  {
    |p| <= |s| && (s[..|p|] == p || Contains(s[1..], p))
  }

  /** `s.replace(pat, rep)`: every non-overlapping occurrence of `pat`, scanned from
      the left, is replaced by `rep`. */
  function Replace(s: string, pat: string, rep: string): (r: string)
    requires |pat| > 0
    ensures !Contains(s, pat) ==> r == s
    decreases |s|
  {
    if |s| < |pat| then s
    else if s[..|pat|] == pat then rep + Replace(s[|pat|..], pat, rep)
    else [s[0]] + Replace(s[1..], pat, rep)
  }

  /** A string lacking the first character of `p` cannot contain `p`. */
  lemma {:induction false} MissingFirstCharNotContained(s: string, p: string)
    requires |p| > 0 && p[0] !in s
    ensures !Contains(s, p)
    decreases |s|
  {
    if |p| <= |s| {
      assert s[..|p|][0] == s[0];
      assert s[0] in s;
      assert forall c :: c in s[1..] ==> c in s;
      MissingFirstCharNotContained(s[1..], p);
    }
  }
}
