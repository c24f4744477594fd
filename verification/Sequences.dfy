/** Facts about sequences that several components use, and the search for a character. */
module Sequences {
  lemma CatThree<T>(a: seq<T>, b: seq<T>, c: seq<T>)
    ensures (a + b) + c == a + (b + c)
  {}

  lemma CatNil<T>(a: seq<T>)
    ensures a + [] == a && [] + a == a
  {}

  lemma MoveHead<T>(a: seq<T>, b: seq<T>)
    requires b != []
    ensures (a + [b[0]]) + b[1..] == a + b
  {}

  lemma HeadOf<T>(a: seq<T>, b: seq<T>)
    requires b != []
    ensures (a + b)[0] == if a != [] then a[0] else b[0]
  {}

  lemma TakeNext<T>(s: seq<T>, k: nat)
    requires k < |s|
    ensures s[..k + 1] == s[..k] + [s[k]]
  {}

  lemma TakeAll<T>(s: seq<T>)
    ensures s[..|s|] == s
  {}

  /** The position of the first c in s, or its length. */
  function IndexOf(s: string, c: char): (n: nat)
    ensures n <= |s| && c !in s[..n] && (n < |s| ==> s[n] == c)
  {
    if s == "" || s[0] == c then 0 else 1 + IndexOf(s[1..], c)
  }

  /** A text without c is passed over whole. */
  lemma {:induction false} IndexAfter(a: string, rest: string, c: char)
    requires c !in a && (rest == "" || rest[0] == c)
    ensures IndexOf(a + rest, c) == |a|
  {
    if a != "" {
      assert (a + rest)[1..] == a[1..] + rest;
      IndexAfter(a[1..], rest, c);
    } else {
      assert a + rest == rest;
    }
  }
}
