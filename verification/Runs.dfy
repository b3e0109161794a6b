/** Two runs, the second starting where the first one ends, read as one. */
module Runs {

  function Joined<T>(a: seq<T>, b: seq<T>): seq<T>
    requires b != []
  {
    a + b[1..]
  }

  lemma JoinedAt<T>(a: seq<T>, b: seq<T>, i: nat)
    requires a != [] && b != [] && a[|a| - 1] == b[0] && i < |a| + |b| - 1
    ensures |Joined(a, b)| == |a| + |b| - 1
    ensures Joined(a, b)[i] == if i < |a| then a[i] else b[i - |a| + 1]
    ensures |a| - 1 <= i ==> Joined(a, b)[i] == b[i - |a| + 1]
  {
  }
}
