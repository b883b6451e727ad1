/** Laws of sequences that Dafny uses when they are named. */
module Sequences {
  lemma Associative<T>(a: seq<T>, b: seq<T>, c: seq<T>)
    ensures a + b + c == a + (b + c)
  {
  }

  lemma LeftEmpty<T>(s: seq<T>)
    ensures [] + s == s
  {
  }

  lemma RightEmpty<T>(s: seq<T>)
    ensures s + [] == s
  {
  }

  lemma SplitAt<T>(s: seq<T>, i: nat)
    requires i <= |s|
    ensures s == s[..i] + s[i..]
  {
  }
}
