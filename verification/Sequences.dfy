// What several parts say of sequences.

module Sequences {

  // No element is there twice.
  ghost predicate Distinct<T>(s: seq<T>) { forall i, j :: 0 <= i < j < |s| ==> s[i] != s[j] }

  lemma Associates<T>(a: seq<T>, b: seq<T>, c: seq<T>)
    ensures a + (b + c) == a + b + c
  {
  }

  // r is what s has at the places `at`, in order.
  ghost predicate PicksOut<T>(s: seq<T>, at: seq<nat>, r: seq<T>) {
    && |at| == |r| && (forall i, j :: 0 <= i < j < |at| ==> at[i] < at[j])
    && forall j :: 0 <= j < |at| ==> at[j] < |s| && r[j] == s[at[j]]
  }

  lemma PicksOutMore<T>(s: seq<T>, at: seq<nat>, r: seq<T>, x: T)
    requires PicksOut(s, at, r)
    ensures PicksOut(s + [x], at, r) && PicksOut(s + [x], at + [|s|], r + [x])
  {
  }
}
