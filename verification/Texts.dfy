/** Text operations that several components share. */
module Texts {
  /** `lower()`, for ASCII letters. */
  function Lower(s: string): string {
    if s == [] then [] else [if 'A' <= s[0] <= 'Z' then s[0] - 'A' + 'a' else s[0]] + Lower(s[1..])
  }

  /** Letter by letter. */
  lemma {:induction false} LowerEach(s: string)
    ensures |Lower(s)| == |s|
    ensures forall i | 0 <= i < |s| :: Lower(s)[i] == if 'A' <= s[i] <= 'Z' then s[i] - 'A' + 'a' else s[i]
    decreases |s|
  {
    if s != [] {
      LowerEach(s[1..]);
    }
  }
}
