/** `uniqueId` (src/utils/utils.ts): the prefix, then up to eight characters of a
    random number rendered in base 36, then the clock reading in base 36. The random
    number's rendering and the clock reading are parameters. */
module Ids {
  import Numerals

  /** `s.slice(start, end)` for non-negative bounds: both are clamped to the length. */
  function Slice(s: string, start: nat, end: nat): (r: string)
    ensures |r| == if start < end && start < |s| then (if end <= |s| then end else |s|) - start else 0
    ensures forall i :: 0 <= i < |r| ==> start + i < |s| && r[i] == s[start + i]
  {
    var lo := if start <= |s| then start else |s|;
    var hi := if end <= |s| then (if end < lo then lo else end) else |s|;
    s[lo..hi]
  }

  /** `Math.random().toString(36).slice(2, 10)`, given the rendered random number
      (for instance "0.4fzyo82mvyr"): the digits after "0.", at most eight. */
  function RandomFragment(randomText: string): (r: string)
    ensures |r| <= 8
  {
    Slice(randomText, 2, 10)
  }

  /** `uniqueId(prefix)` with the random rendering and the millisecond clock given. */
  function UniqueId(prefix: string := "", randomText: string, now: int): (r: string)
    ensures |prefix| + |Numerals.IntToString(now, 36)| <= |r| && r[..|prefix|] == prefix
    ensures r[|r| - |Numerals.IntToString(now, 36)|..] == Numerals.IntToString(now, 36)
    ensures |r| <= |prefix| + 8 + |Numerals.IntToString(now, 36)|
  {
    prefix + RandomFragment(randomText) + Numerals.IntToString(now, 36)
  }

  /** With the same prefix and the same random draw, ids taken at different clock
      readings differ. */
  lemma UniqueIdDistinctClocks(prefix: string, randomText: string, t1: int, t2: int)
    requires t1 != t2
    ensures UniqueId(prefix, randomText, t1) != UniqueId(prefix, randomText, t2)
  {
    var head := prefix + RandomFragment(randomText);
    var s1, s2 := Numerals.IntToString(t1, 36), Numerals.IntToString(t2, 36);
    assert UniqueId(prefix, randomText, t1) == head + s1;
    assert UniqueId(prefix, randomText, t2) == head + s2;
    if head + s1 == head + s2 {
      assert s1 == (head + s1)[|head|..];
      assert s2 == (head + s2)[|head|..];
      Numerals.IntToStringInjective(t1, t2, 36);
    }
  }
}
