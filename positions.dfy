/**
 * Line and column of a character in a text, defined directly from the text,
 * and the proof that the cursor's lazy bookkeeping in `next` agrees with them.
 */
module Positions {
  import opened Scanner

  /** The 1-based line of the character at index `i`: one more than the newlines before it. */
  function LineOf(s: string, i: nat): nat
    requires i <= |s|
  {
    1 + multiset(s[..i])['\n']
  }

  /** Where the line holding index `i` starts: just after the last newline before `i`, or 0. */
  function LineStart(s: string, i: nat): (r: nat)
    requires i <= |s|
    ensures r <= i
    ensures r == 0 || s[r - 1] == '\n'
    ensures forall j :: r <= j < i ==> s[j] != '\n'
  {
    if i == 0 then 0 else if s[i - 1] == '\n' then i else LineStart(s, i - 1)
  }

  /** The 1-based column of the character at index `i`. */
  function ColOf(s: string, i: nat): nat
    requires i <= |s|
  {
    i - LineStart(s, i) + 1
  }

  /**
   * After consuming `k >= 1` characters, a fresh cursor's `line` and `col` are
   * the position of the last consumed character and `prev` is that character.
   */
  lemma {:induction false} AtPosition(input: string, k: nat)
    requires 1 <= k <= |input|
    ensures At(input, k).line == LineOf(input, k - 1)
    ensures At(input, k).col == ColOf(input, k - 1)
    ensures At(input, k).prev == input[k - 1]
  {
    assert At(input, k) == Step(input, At(input, k - 1));
    if k == 1 {
      assert input[..0] == [];
    } else {
      AtPosition(input, k - 1);
      assert input[..k - 1] == input[..k - 2] + [input[k - 2]];
    }
  }

  /** A fresh cursor is on line 1 at column 0. */
  lemma FreshPosition(input: string)
    ensures At(input, 0).line == 1 && At(input, 0).col == 0 && At(input, 0).pos == 0
  {
  }
}
