/** Occurrences of one text in another. */
module Texts {
  predicate At(s: string, i: nat, sub: string) {
    i + |sub| <= |s| && s[i..i + |sub|] == sub
  }

  predicate Contains(s: string, sub: string) {
    exists i: nat :: i <= |s| && At(s, i, sub)
  }
}
