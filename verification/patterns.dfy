/**
 * The pieces of Python's `re.match` that the validators use: a character class repeated
 * greedily, and the `$` anchor, which matches at the end of the text and also just before a
 * single newline that ends the text.
 */
module Patterns {

  /** Every character of `s` is in the class `p`. */
  predicate AllIn(p: char -> bool, s: string)
  {
    forall i :: 0 <= i < |s| ==> p(s[i])
  }

  /** `$` matches at position `j` of `s`. */
  predicate DollarAt(s: string, j: int)
  {
    j == |s| || (j == |s| - 1 && 0 <= j && s[j] == '\n')
  }

  /** How many characters a greedy `[p]*` consumes from the start of `s`. */
  function Run(p: char -> bool, s: string): (k: nat)
    ensures k <= |s|
    ensures AllIn(p, s[..k])
    ensures k < |s| ==> !p(s[k])
  {
    if s == [] || !p(s[0]) then 0
    else
      var k := 1 + Run(p, s[1..]);
      assert s[..k] == [s[0]] + s[1..][..k - 1];
      k
  }

  /**
   * A prefix made of class characters and followed by the end of the text or by a character
   * outside the class is the greedy run: backtracking to a shorter or longer prefix cannot
   * meet such a boundary.
   */
  lemma RunIsOnlyBoundary(p: char -> bool, s: string, j: nat)
    requires j <= |s| && AllIn(p, s[..j]) && (j < |s| ==> !p(s[j]))
    ensures j == Run(p, s)
  {
    var k := Run(p, s);
    forall i | 0 <= i < k ensures p(s[i]) { assert s[..k][i] == s[i]; }
    forall i | 0 <= i < j ensures p(s[i]) { assert s[..j][i] == s[i]; }
  }

  /**
   * `[p]+` followed by the separator and then by text that `rest` accepts, for some length of
   * the run: the way a backtracking matcher reads such a sequence.
   */
  predicate RunThen(p: char -> bool, sep: char, rest: string -> bool, s: string)
  {
    exists i :: 1 <= i < |s| && s[i] == sep && AllIn(p, s[..i]) && rest(s[i + 1..])
  }

  /** When the separator is outside the class, only the greedy run can be followed by it. */
  lemma RunThenGreedy(p: char -> bool, sep: char, rest: string -> bool, s: string)
    requires !p(sep)
    ensures var k := Run(p, s);
      RunThen(p, sep, rest, s) <==> (1 <= k < |s| && s[k] == sep && rest(s[k + 1..]))
  {
    var k := Run(p, s);
    if RunThen(p, sep, rest, s) {
      var i :| 1 <= i < |s| && s[i] == sep && AllIn(p, s[..i]) && rest(s[i + 1..]);
      RunIsOnlyBoundary(p, s, i);
    }
  }
}
