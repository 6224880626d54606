/** Python `pathlib` name and suffix handling on a normalised posix path string:
    `/` separates components, with no trailing `/` and no empty or `.` components. */
module PurePath {
  import opened Wrappers
  import opened PyStr

  /** The final component, `Path.name`: everything after the last `/`. Matches
      pathlib only on normalised paths; "dir/" has name "" here but "dir" in pathlib. */
  function Name(p: string): (n: string)
    ensures EndsWith(p, n) && '/' !in n
    ensures |n| < |p| ==> p[|p| - |n| - 1] == '/'
  {
    p[RFind(p, '/') + 1..]
  }

  /** Everything before the final component, separator included. */
  function Dir(p: string): (d: string)
    ensures d + Name(p) == p
    ensures d == "" || d[|d| - 1] == '/'
  {
    p[..|p| - |Name(p)|]
  }

  /** `Path.suffix` of a name: from its last dot, unless that dot is the first
      or the last character, in which case there is no suffix. */
  function Suffix(name: string): (s: string)
    ensures s == "" || (2 <= |s| < |name| && s[0] == '.' && EndsWith(name, s) && '.' !in s[1..])
  {
    var i := RFind(name, '.');
    if 0 < i < |name| - 1 then name[i..] else ""
  }

  /** `Path.stem`: the name without its suffix. */
  function Stem(name: string): string
  {
    name[..|name| - |Suffix(name)|]
  }

  /** A suffix `with_suffix` accepts without raising: a dot, at least one more
      character, and no separator. */
  predicate ValidSuffix(suffix: string)
  {
    2 <= |suffix| && suffix[0] == '.' && '/' !in suffix
  }

  /** `Path.with_suffix(suffix)`; `None` where pathlib raises ValueError because the
      path has an empty name. */
  function WithSuffix(p: string, suffix: string): (r: Option<string>)
    requires ValidSuffix(suffix)
    ensures r.None? <==> Name(p) == ""
    ensures r.Some? ==> Dir(r.value) == Dir(p) && Name(r.value) == Stem(Name(p)) + suffix
    ensures r.Some? ==> (Suffix(Name(r.value)) == suffix <==> '.' !in suffix[1..])
    ensures r.Some? && '.' !in suffix[1..] ==> Stem(Name(r.value)) == Stem(Name(p))
  {
    var name := Name(p);
    if name == "" then None
    else
      var oldSuffix := Suffix(name);
      var newName := if oldSuffix == "" then name + suffix else name[..|name| - |oldSuffix|] + suffix;
      StemPlusSuffix(name, suffix, newName);
      JoinedName(Dir(p), Stem(name), suffix, newName);
      Some(Dir(p) + newName)
  }

  /** The join of a directory and a stem-plus-suffix name, seen through `Dir`,
      `Name`, `Suffix` and `Stem`. */
  lemma JoinedName(d: string, stem: string, suffix: string, newName: string)
    requires d == "" || d[|d| - 1] == '/'
    requires newName == stem + suffix && stem != "" && '/' !in newName
    requires 2 <= |suffix| && suffix[0] == '.'
    ensures Dir(d + newName) == d && Name(d + newName) == stem + suffix
    ensures '.' !in suffix[1..] ==> Suffix(Name(d + newName)) == suffix && Stem(Name(d + newName)) == stem
  {
    NameOfJoin(d, newName);
    SuffixOfJoin(stem, suffix);
  }

  /** Both ways `with_suffix` builds the new name come to the stem plus the suffix,
      a non-empty and separator-free name. */
  lemma StemPlusSuffix(name: string, suffix: string, newName: string)
    requires name != "" && '/' !in name && ValidSuffix(suffix)
    requires newName == if Suffix(name) == "" then name + suffix else name[..|name| - |Suffix(name)|] + suffix
    ensures newName == Stem(name) + suffix && Stem(name) != "" && '/' !in newName
  {
    assert forall c :: c in name[..|Stem(name)|] ==> c in name;
  }

  /** Appending a separator-free component after a directory gives that component as the name. */
  lemma NameOfJoin(d: string, n: string)
    requires d == "" || d[|d| - 1] == '/'
    requires '/' !in n
    ensures Name(d + n) == n && Dir(d + n) == d
  {
    var s := d + n;
    assert forall k :: |d| <= k < |s| ==> s[k] == n[k - |d|];
    assert d != "" ==> s[|d| - 1] == '/';
    assert RFind(s, '/') == |d| - 1;
  }

  /** A non-empty stem followed by a one-dot suffix has exactly that suffix and stem. */
  lemma SuffixOfJoin(stem: string, suffix: string)
    requires stem != "" && 2 <= |suffix| && suffix[0] == '.'
    ensures '.' !in suffix[1..] ==> Suffix(stem + suffix) == suffix && Stem(stem + suffix) == stem
  {
    if '.' in suffix[1..] { return; }
    var s := stem + suffix;
    var i := RFind(s, '.');
    assert forall k :: |stem| < k < |s| ==> s[k] == suffix[1..][k - |stem| - 1];
    assert s[|stem|] == '.';
    assert i == |stem|;
    assert s[i..] == suffix;
  }

  /** Applying the same one-dot suffix twice changes nothing more. */
  lemma WithSuffixIdempotent(p: string, suffix: string)
    requires ValidSuffix(suffix) && '.' !in suffix[1..]
    requires Name(p) != ""
    ensures WithSuffix(WithSuffix(p, suffix).value, suffix) == WithSuffix(p, suffix)
  {
    var q := WithSuffix(p, suffix).value;
    var q' := WithSuffix(q, suffix).value;
    assert Name(q') == Stem(Name(p)) + suffix == Name(q);
    assert q' == Dir(q') + Name(q') && q == Dir(q) + Name(q);
  }
}
