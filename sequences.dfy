/** Facts about sequence concatenation, stated once so that the proofs about the renderer and
    the text clean-up need not rediscover them among their own definitions. */
module Sequences {
  lemma HeadSplits<T>(s: seq<T>)
    requires s != []
    ensures [s[0]] + s[1..] == s
  {
  }

  lemma LastSplits<T>(s: seq<T>)
    requires s != []
    ensures s[..|s| - 1] + [s[|s| - 1]] == s
  {
  }

  lemma TailOfAppend<T>(a: seq<T>, t: seq<T>)
    requires a != []
    ensures (a + t)[1..] == a[1..] + t
  {
  }

  lemma ConsAssociates<T>(a: seq<T>, t: seq<T>)
    requires a != []
    ensures [a[0]] + (a[1..] + t) == a + t
  {
  }

  lemma AppendAssociates<T>(a: seq<T>, b: seq<T>, c: seq<T>, d: seq<T>)
    ensures a + b + c + d == a + (b + c + d)
  {
  }

  lemma MiddleGroups<T>(a: seq<T>, b: seq<T>, c: seq<T>, d: seq<T>, e: seq<T>)
    ensures a + b + c + d + e == a + (b + c + d) + e
  {
  }
}
