/** Concatenation of strings, regrouped. */
module Strings {

  lemma Empty(s: string)
    ensures s + "" == s && "" + s == s
  {
  }

  lemma Assoc3(a: string, b: string, c: string)
    ensures a + b + c == a + (b + c)
  {
  }

  lemma Assoc4(a: string, b: string, c: string, d: string)
    ensures a + b + c + d == a + (b + c + d) == a + (b + (c + d))
  {
  }

  lemma Assoc5(a: string, b: string, c: string, d: string, e: string)
    ensures a + b + c + d + e == a + (b + (c + (d + e)))
  {
  }

  // A text under construction takes its next piece.
  lemma Shift(s: string, step: string, rest: string, goal: string)
    requires s + (step + rest) == goal
    ensures s + step + rest == goal
  {
  }
}
