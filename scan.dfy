/**
 * Spans and maximal runs: the two notions every pattern and every scanner
 * of this model are built from.
 */
module Scan {

  /**
   * The slice s[i..j] lies within s and consists only of characters in the
   * class p: the span that `[class]*` occupies.
   */
  predicate All(s: string, i: int, j: int, p: char -> bool) {
    0 <= i <= j <= |s| && forall k | i <= k < j :: p(s[k])
  }

  /**
   * The end of the longest run of p-characters that starts at i. The spans
   * of p-characters starting at i are exactly those that end at or before it.
   */
  function RunEnd(s: string, i: nat, p: char -> bool): (j: nat)
    requires i <= |s|
    ensures i <= j <= |s| && All(s, i, j, p)
    ensures j == |s| || !p(s[j])
    ensures forall k | i <= k <= |s| :: All(s, i, k, p) <==> k <= j
    decreases |s| - i
  {
    if i == |s| || !p(s[i]) then i else RunEnd(s, i + 1, p)
  }
}
