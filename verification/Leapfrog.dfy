// The circular intersection with subtraction of and_results, over the contents of its sets
// (indexer/search/search_lib.c).

module Leapfrog {
  import opened Items

  ghost predicate Increasing(s: seq<U64>) {
    forall i, j :: 0 <= i < j < |s| ==> s[i] < s[j]
  }

  ghost predicate InAll(sets: seq<seq<U64>>, x: int) {
    forall i :: 0 <= i < |sets| ==> x in sets[i]
  }

  // How many sets set i comes before set j on the circle of k sets; set j itself comes last.
  function StepsTo(i: nat, j: nat, k: nat): (d: nat)
    requires i < k && j < k
    ensures 1 <= d <= k && (d == k <==> i == j)
  {
    if i < j then j - i else j + k - i
  }

  // Where the search stands: `sets` are what there was to begin with and `rest` what is left.
  // `item` is the offset looked for; the last `count` sets before `curr` have it. Everything
  // below `done` has been decided.
  datatype Search = Search(rest: seq<seq<U64>>, item: nat, count: nat, curr: nat, done: nat)

  ghost predicate Matched(s: Search, i: nat)
    requires i < |s.rest| && s.curr < |s.rest|
  {
    StepsTo(i, s.curr, |s.rest|) <= s.count
  }

  ghost predicate SetOnTrack(sets: seq<seq<U64>>, s: Search, i: nat)
    requires i < |s.rest| == |sets| && s.curr < |s.rest|
  {
    && Increasing(s.rest[i])
    && (forall x <- s.rest[i] :: x in sets[i])
    && if Matched(s, i) then
         && s.item in sets[i] && (forall x <- s.rest[i] :: x > s.item)
         && (forall x <- sets[i] :: x > s.item ==> x in s.rest[i])
       else
         && (forall x <- sets[i] :: x >= s.done ==> x in s.rest[i])
         && (s.done > s.item ==> forall x <- s.rest[i] :: x > s.item)
  }

  ghost predicate OnTrack(sets: seq<seq<U64>>, s: Search) {
    && |s.rest| == |sets| > 0 && s.curr < |sets| && s.count <= |sets|
    && s.item <= s.done <= s.item + 1 && (s.done > s.item ==> s.count == 0)
    && forall i :: 0 <= i < |sets| ==> SetOnTrack(sets, s, i)
  }

  lemma StartOnTrack(sets: seq<seq<U64>>)
    requires |sets| > 0 && forall i :: 0 <= i < |sets| ==> Increasing(sets[i])
    ensures OnTrack(sets, Search(sets, 0, 0, 0, 0))
  {
  }

  // When all sets have the item, it is in the intersection and is done with.
  lemma FoundInAll(sets: seq<seq<U64>>, s: Search)
    requires OnTrack(sets, s) && s.count == |sets|
    ensures InAll(sets, s.item) && s.done == s.item
    ensures OnTrack(sets, s.(count := 0, done := s.item + 1))
  {
    forall i | 0 <= i < |sets| ensures SetOnTrack(sets, s.(count := 0, done := s.item + 1), i) && s.item in sets[i] {
      assert SetOnTrack(sets, s, i);
    }
  }

  // Elements below the item are passed over.
  lemma PassedOver(sets: seq<seq<U64>>, s: Search)
    requires OnTrack(sets, s) && s.count < |sets| && s.rest[s.curr] != [] && s.rest[s.curr][0] < s.item
    ensures OnTrack(sets, s.(rest := s.rest[s.curr := s.rest[s.curr][1..]]))
  {
    var t := s.(rest := s.rest[s.curr := s.rest[s.curr][1..]]);
    forall i | 0 <= i < |sets| ensures SetOnTrack(sets, t, i) {
      assert SetOnTrack(sets, s, i);
    }
  }

  // The current set has run out: nothing that is not decided is in all sets.
  lemma RunOut(sets: seq<seq<U64>>, s: Search, x: int)
    requires OnTrack(sets, s) && s.count < |sets| && s.rest[s.curr] == [] && x >= s.done
    ensures !InAll(sets, x)
  {
    assert SetOnTrack(sets, s, s.curr);
    assert x !in sets[s.curr];
  }

  function NextSet(curr: nat, k: nat): nat
    requires curr < k
  {
    if curr + 1 == k then 0 else curr + 1
  }

  // The current set has an element that is not below the item: one more match for it, or the
  // item to look for from now on.
  function Advanced(s: Search): Search
    requires s.curr < |s.rest| && s.rest[s.curr] != []
  {
    var next := s.rest[s.curr][0];
    var rest := s.rest[s.curr := s.rest[s.curr][1..]];
    if next > s.item then Search(rest, next, 1, NextSet(s.curr, |s.rest|), next)
    else Search(rest, s.item, s.count + 1, NextSet(s.curr, |s.rest|), s.done)
  }

  lemma AdvancedOnTrack(sets: seq<seq<U64>>, s: Search)
    requires OnTrack(sets, s) && s.count < |sets| && s.rest[s.curr] != [] && s.rest[s.curr][0] >= s.item
    ensures OnTrack(sets, Advanced(s)) && Advanced(s).done >= s.done
    ensures forall x :: s.done <= x < Advanced(s).done ==> !InAll(sets, x)
  {
    var t, next := Advanced(s), s.rest[s.curr][0];
    assert SetOnTrack(sets, s, s.curr);
    assert next in s.rest[s.curr] && s.done <= next;
    forall i | 0 <= i < |sets| ensures SetOnTrack(sets, t, i) {
      assert SetOnTrack(sets, s, i);
    }
    forall x | s.done <= x < t.done ensures !InAll(sets, x) {
      assert x in s.rest[s.curr] ==> x >= next;
      assert x !in sets[s.curr];
    }
  }
}
