/** The few `java.lang.String` and commons-lang `StringUtils` operations the
    file filter relies on, over `seq<char>`. */
module Strings {

  /** `s.endsWith(suffix)`; every string ends with the empty string. */
  predicate EndsWith(s: string, suffix: string) {
    |suffix| <= |s| && s[|s| - |suffix|..] == suffix
  }

  /** `StringUtils.removeEnd(s, remove)`: removes one trailing occurrence of
      `remove` when there is one; an empty `s` or `remove` is returned as is. */
  function RemoveEnd(s: string, remove: string): (r: string)
    ensures remove != [] && EndsWith(s, remove) ==> r + remove == s
    ensures remove == [] || !EndsWith(s, remove) ==> r == s
  {
    if |s| == 0 || |remove| == 0 then s
    else if EndsWith(s, remove) then s[..|s| - |remove|]
    else s
  }

  /** Removing a suffix undoes appending it, and removes only one copy. */
  lemma RemoveEndUndoesAppend(prefix: string, suffix: string)
    ensures EndsWith(prefix + suffix, suffix)
    ensures RemoveEnd(prefix + suffix, suffix) == prefix
  {
    assert (prefix + suffix)[|prefix|..] == suffix;
    if suffix == [] {
      assert prefix + suffix == prefix;
    }
  }

  /** `s.replace(x, y)`: every `x` becomes `y`, every other character stays. */
  function Replace(s: string, x: char, y: char): (r: string)
    ensures |r| == |s|
    ensures forall i | 0 <= i < |s| :: s[i] == x ==> r[i] == y
    ensures forall i | 0 <= i < |s| :: s[i] != x ==> r[i] == s[i]
    ensures x != y ==> x !in r
  {
    if s == [] then []
    else [if s[0] == x then y else s[0]] + Replace(s[1..], x, y)
  }
}
